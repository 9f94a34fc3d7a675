/**
 * `InvoiceExtractor`: the record of one invoice, the validity test on the
 * invoice text, the sequence of extraction rules `extract_data` applies, and
 * the derived `total_usage_units`.
 */
module Extractor {
  import opened Wrappers
  import opened Text
  import opened Regex
  import opened Record
  import opened ThaiCalendar
  import opened Rules

  /** The markers whose presence makes a text an invoice. */
  const RequiredKeywords: seq<string> := ["เลขที่ใบแจ้งค่าไฟฟ้า", "PEA Code", "จำนวนเงิน"]

  /** Every required marker occurs in the text. */
  predicate IsValidText(text: string) {
    forall i :: 0 <= i < |RequiredKeywords| ==> IsSubstring(RequiredKeywords[i], text)
  }

  /** The assignments of the rules applied before the usage tiers, in call order. */
  function HeaderWrites(text: string): seq<(string, Value)> {
    Writes(PrintedRule, text) + Writes(CaRule, text) + Writes(InvoiceNumberRule, text)
    + Writes(TotalAmountRule, text) + DueDateWrites(text) + Writes(AddressRule, text)
    + PeaWrites(text) + Writes(UsageRule, text)
  }

  /** Every assignment `extract_data` makes through its rules, in call order. */
  function AllWrites(text: string): seq<(string, Value)> {
    HeaderWrites(text) + TierWrites(text, 3) + ChargeWrites(text)
  }

  /* ---------------------------------------------------------------------- */
  /* _calculate_total_usage_units                                            */

  /** The units field of each tier, in `traffic_matches` order. */
  const UnitsFields: seq<string> := ["usage_1_150_units", "usage_151_400_units", "usage_over_401_units"]

  lemma UnitsFieldsOfTable()
    ensures forall t :: 0 <= t < 3 ==> UnitsFields[t] == TrafficMatches[t].1
  {
  }

  /** The outcome of `float(x)`: a number, or the exception it raises. */
  datatype Conversion = Converted(n: int) | Raised(e: Fault)

  /**
   * `float(record.get(k, 0))`: a missing key gives the default 0, `None` and a
   * date raise `TypeError`, a digit string is its value and any other string
   * raises `ValueError`.
   */
  function Float(v: Option<Value>): Conversion
  {
    match v
    case None => Converted(0)
    case Some(Absent) => Raised(TypeError)
    case Some(Text(s)) => if IsDigits(s) then Converted(ParseDigits(s)) else Raised(ValueError)
    case Some(Number(n)) => Converted(n)
    case Some(DateValue(_)) => Raised(TypeError)
  }

  /**
   * The record after `_calculate_total_usage_units`: the three tier units are
   * converted in order; a `ValueError` is caught and leaves the record as it
   * was, any other exception escapes; when all three convert, their sum is
   * stored in `total_usage_units`.
   */
  function TotalUsage(d: Dict): (r: Result<Dict, Fault>)
    ensures d.Wf() && r.Success? ==> r.value.Wf()
    ensures r.Failure? ==> r.error == TypeError
    ensures var a, b, c := Float(d.Get(UnitsFields[0])), Float(d.Get(UnitsFields[1])), Float(d.Get(UnitsFields[2]));
      (a.Raised? || b.Raised? || c.Raised?) && a != Raised(TypeError) && b != Raised(TypeError) && c != Raised(TypeError)
      ==> r == Success(d)
  {
    var a := Float(d.Get(UnitsFields[0]));
    var b := Float(d.Get(UnitsFields[1]));
    var c := Float(d.Get(UnitsFields[2]));
    if a.Raised? then Caught(d, a.e)
    else if b.Raised? then Caught(d, b.e)
    else if c.Raised? then Caught(d, c.e)
    else Success(d.Set("total_usage_units", Number(a.n + b.n + c.n)))
  }

  /** The `except ValueError` clause: that exception is absorbed, any other escapes. */
  function Caught(d: Dict, e: Fault): Result<Dict, Fault> {
    if e == ValueError then Success(d) else Failure(e)
  }

  /** A units string captured as decimal digits converts back to the number it was written from. */
  lemma FloatOfDecimal(n: nat)
    ensures Float(Some(Text(NatToString(n)))) == Converted(n)
  {
    NatToStringRoundTrip(n);
  }

  /* ---------------------------------------------------------------------- */
  /* extract_data                                                            */

  /**
   * `extract_data` on the text of the PDF, starting from record `d`: `None` for
   * text that is not an invoice, otherwise the record after every rule and the
   * total, or the exception the total raises.
   */
  function Extract(d: Dict, text: string): Result<Option<Dict>, Fault>
  {
    if !IsValidText(text) then Success(None)
    else
      match TotalUsage(d.SetAll(AllWrites(text)))
      case Success(r) => Success(Some(r))
      case Failure(e) => Failure(e)
  }

  /** The record held once `extract_data` has returned or raised. */
  function Extracted(d: Dict, text: string): Dict
  {
    if !IsValidText(text) then d
    else
      var written := d.SetAll(AllWrites(text));
      match TotalUsage(written)
      case Success(r) => r
      case Failure(_) => written
  }

  /** Reads an invoice out of the text of one PDF into `data`. */
  class InvoiceExtractor {
    const pdfPath: string
    var data: Dict

    /** A fresh extractor holds the 37-field record with every value absent. */
    constructor(pdfPath: string)
      ensures this.pdfPath == pdfPath && data == InitialData()
    {
      this.pdfPath := pdfPath;
      data := InitialData();
    }

    /** `is_valid_invoice`: the markers are tried in order and the first one missing answers false. */
    method IsValidInvoice(text: string) returns (b: bool)
      ensures b == IsValidText(text)
    {
      var i := 0;
      while i < |RequiredKeywords|
        invariant 0 <= i <= |RequiredKeywords|
        invariant forall j :: 0 <= j < i ==> IsSubstring(RequiredKeywords[j], text)
      {
        if !IsSubstring(RequiredKeywords[i], text) {
          return false;
        }
        i := i + 1;
      }
      return true;
    }

    /** `extract_data`, with the text the PDF yields passed in. */
    method ExtractData(text: string) returns (r: Result<Option<Dict>, Fault>)
      modifies this
      ensures r == Extract(old(data), text)
      ensures data == Extracted(old(data), text)
    {
      var valid := IsValidInvoice(text);
      if !valid {
        return Success(None);
      }
      ghost var d0 := data;
      ExtractPrintedDate(text);
      ghost var d1 := data;
      ExtractCaNumber(text);
      ghost var d2 := data;
      ExtractInvoiceNumber(text);
      ghost var d3 := data;
      ExtractTotalAmount(text);
      ghost var d4 := data;
      ExtractDueDate(text);
      ghost var d5 := data;
      ExtractAddress(text);
      ghost var d6 := data;
      ExtractPeaCodeSection(text);
      ghost var d7 := data;
      ExtractUsageData(text);
      ghost var d8 := data;
      HeaderApplied(d0, d1, d2, d3, d4, d5, d6, d7, d8, text);
      ExtractTrafficAndAmounts(text);
      ghost var tiers := data;
      ExtractServiceChargeAndTotals(text);
      SetAllStep(d0, d8, tiers, HeaderWrites(text), TierWrites(text, 3));
      SetAllStep(d0, tiers, data, HeaderWrites(text) + TierWrites(text, 3), ChargeWrites(text));
      var raised := CalculateTotalUsageUnits();
      if raised.Some? {
        return Failure(raised.value);
      }
      return Success(Some(data));
    }

    method ExtractPrintedDate(text: string)
      modifies this
      ensures data == old(data).SetAll(Writes(PrintedRule, text))
    {
      var m := Search(text, PrintedRule.pat);
      if m.Some? {
        data := data.Set("printed_date", Text(m.value[0]));
        data := data.Set("printed_time", Text(m.value[1]));
        SetAllTwo(old(data), Assign(PrintedRule.targets, m));
      }
    }

    method ExtractCaNumber(text: string)
      modifies this
      ensures data == old(data).SetAll(Writes(CaRule, text))
    {
      var m := Search(text, CaRule.pat);
      if m.Some? {
        data := data.Set("customer_account", Text(m.value[0]));
        SetAllOne(old(data), Assign(CaRule.targets, m));
      }
    }

    method ExtractInvoiceNumber(text: string)
      modifies this
      ensures data == old(data).SetAll(Writes(InvoiceNumberRule, text))
    {
      var m := Search(text, InvoiceNumberRule.pat);
      if m.Some? {
        data := data.Set("invoice_number", Text(m.value[0]));
        SetAllOne(old(data), Assign(InvoiceNumberRule.targets, m));
      }
    }

    method ExtractTotalAmount(text: string)
      modifies this
      ensures data == old(data).SetAll(Writes(TotalAmountRule, text))
    {
      var m := Search(text, TotalAmountRule.pat);
      if m.Some? {
        data := data.Set("total_amount_baht", Text(m.value[0]));
        SetAllOne(old(data), Assign(TotalAmountRule.targets, m));
      }
    }

    method ExtractDueDate(text: string)
      modifies this
      ensures data == old(data).SetAll(DueDateWrites(text))
    {
      var m := Search(text, DueDatePattern);
      if m.Some? {
        var day, thaiMonth, thaiYear := m.value[0], m.value[1], m.value[2];
        SearchGroupLang(text, DueDatePattern, 2);
        var month := MonthNumber(thaiMonth);
        var year := IntToString(ParseDigits(thaiYear) - BuddhistEraOffset);
        var formattedDate := day + "-" + month + "-" + year;
        data := data.Set("due_date", Text(formattedDate));
        SetAllOne(old(data), DueDateWrites(text));
      }
    }

    method ExtractAddress(text: string)
      modifies this
      ensures data == old(data).SetAll(Writes(AddressRule, text))
    {
      var m := Search(text, AddressRule.pat);
      if m.Some? {
        data := data.Set("customer_address", Text(m.value[0]));
        SetAllOne(old(data), Assign(AddressRule.targets, m));
      }
    }

    method ExtractPeaCodeSection(text: string)
      modifies this
      ensures data == old(data).SetAll(PeaWrites(text))
    {
      var marker := Search(text, PeaMarker);
      if marker.Some? {
        var nextLine := Search(text, PeaNextLine);
        if nextLine.Some? {
          var values := Split(Strip(nextLine.value[0]));
          if |values| >= 8 {
            StoreMeterRow(values);
          }
        }
      }
    }

    /** The eight assignments under `if len(values) >= 8`, in source order. */
    method StoreMeterRow(values: seq<string>)
      requires |values| >= 8
      modifies this
      ensures data == old(data).SetAll(PeaRow(values))
    {
      data := data.Set("pea_code", Text(values[0]));
      data := data.Set("mru", Text(values[1]));
      data := data.Set("meter_number", Text(values[2]));
      data := data.Set("meter_type", Text(values[3]));
      data := data.Set("meter_reading_date", Text(values[4]));
      data := data.Set("billing_period", Text(values[5]));
      data := data.Set("voltage_level", Text(Join(values[6..8], " ")));
      data := data.Set("multiplier", Text(if |values| > 8 then values[8] else "-"));
      SetAllEight(old(data), PeaRow(values));
    }

    method ExtractUsageData(text: string)
      modifies this
      ensures data == old(data).SetAll(Writes(UsageRule, text))
    {
      var m := Search(text, UsageRule.pat);
      if m.Some? {
        data := data.Set("recent_reading", Text(m.value[0]));
        data := data.Set("previous_reading", Text(m.value[1]));
        data := data.Set("consumption_units", Text(m.value[2]));
        SetAllThree(old(data), Assign(UsageRule.targets, m));
      }
    }

    /** `_extract_traffic_and_amounts`: the tiers of `traffic_matches`, one after another. */
    method ExtractTrafficAndAmounts(text: string)
      modifies this
      ensures data == old(data).SetAll(TierWrites(text, 3))
    {
      TrafficMatchesWf();
      ghost var ws: seq<(string, Value)> := [];
      var i := 0;
      while i < |TrafficMatches|
        invariant 0 <= i <= |TrafficMatches|
        invariant ws == TierWrites(text, i)
        invariant data == old(data).SetAll(ws)
      {
        var (pattern, traffic, bahtPerUnit, amount) := TrafficMatches[i];
        ghost var before := data;
        var m := Search(text, pattern);
        if m.Some? {
          data := data.Set(traffic, Text(m.value[0]));
          data := data.Set(bahtPerUnit, Text(m.value[1]));
          data := data.Set(amount, Text(m.value[2]));
          SetAllThree(before, Writes(Tier(i), text));
        }
        SetAllStep(old(data), before, data, ws, Writes(Tier(i), text));
        ws := ws + Writes(Tier(i), text);
        i := i + 1;
      }
    }

    /**
     * `_extract_service_charge_and_totals`: eight searches, each tried once, in
     * this order; all but the VAT search fill one field.
     */
    method ExtractServiceChargeAndTotals(text: string)
      modifies this
      ensures data == old(data).SetAll(ChargeWrites(text))
    {
      ghost var d0 := data;
      ExtractAmount(text, ServiceChargeRule);
      ghost var d1 := data;
      ExtractAmount(text, TotalBasedAmountRule);
      ghost var d2 := data;
      ExtractAmount(text, BaseAmountRule);
      ghost var d3 := data;
      ExtractAmount(text, FtRule);
      ghost var d4 := data;
      ExtractAmount(text, SubtotalRule);
      ghost var d5 := data;

      var vatMatch := Search(text, VatRule.pat);
      if vatMatch.Some? {
        data := data.Set("vat_percent", Text(vatMatch.value[0]));
        data := data.Set("vat_amount_baht", Text(vatMatch.value[1]));
        SetAllTwo(d5, Writes(VatRule, text));
      }
      ghost var d6 := data;

      ExtractAmount(text, TotalRule);
      ghost var d7 := data;
      ExtractAmount(text, GrandTotalRule);
      SetAllGroups(d0, d1, d2, d3, d4, d5, d6, d7, data,
                   Writes(ServiceChargeRule, text), Writes(TotalBasedAmountRule, text),
                   Writes(BaseAmountRule, text), Writes(FtRule, text), Writes(SubtotalRule, text),
                   Writes(VatRule, text), Writes(TotalRule, text), Writes(GrandTotalRule, text));
    }

    /**
     * One single-amount search of `_extract_service_charge_and_totals`: on a
     * match the rule's one field gets the text of its group.
     */
    method ExtractAmount(text: string, rule: WfRule)
      requires |rule.targets| == 1
      modifies this
      ensures data == old(data).SetAll(Writes(rule, text))
    {
      var m := Search(text, rule.pat);
      if m.Some? {
        data := data.Set(rule.targets[0].0, Text(m.value[rule.targets[0].1]));
        SetAllOne(old(data), Writes(rule, text));
      }
    }

    /** `_calculate_total_usage_units`; `raised` is the exception that escapes, if any. */
    method CalculateTotalUsageUnits() returns (raised: Option<Fault>)
      modifies this
      ensures TotalUsage(old(data)).Success? ==> raised == None && data == TotalUsage(old(data)).value
      ensures TotalUsage(old(data)).Failure? ==> raised == Some(TotalUsage(old(data)).error) && data == old(data)
    {
      var usage1150 := Float(data.Get("usage_1_150_units"));
      if usage1150.Raised? {
        raised := if usage1150.e == ValueError then None else Some(usage1150.e);
        return;
      }
      var usage151400 := Float(data.Get("usage_151_400_units"));
      if usage151400.Raised? {
        raised := if usage151400.e == ValueError then None else Some(usage151400.e);
        return;
      }
      var usageOver401 := Float(data.Get("usage_over_401_units"));
      if usageOver401.Raised? {
        raised := if usageOver401.e == ValueError then None else Some(usageOver401.e);
        return;
      }
      data := data.Set("total_usage_units", Number(usage1150.n + usage151400.n + usageOver401.n));
      raised := None;
    }
  }

  /* ---------------------------------------------------------------------- */
  /* Proof steps for the methods                                             */

  /** The header rules' assignments, applied group by group through the states `d1` to `d8`. */
  lemma HeaderApplied(d0: Dict, d1: Dict, d2: Dict, d3: Dict, d4: Dict, d5: Dict, d6: Dict, d7: Dict, d8: Dict,
                      text: string)
    requires d1 == d0.SetAll(Writes(PrintedRule, text)) && d2 == d1.SetAll(Writes(CaRule, text))
    requires d3 == d2.SetAll(Writes(InvoiceNumberRule, text)) && d4 == d3.SetAll(Writes(TotalAmountRule, text))
    requires d5 == d4.SetAll(DueDateWrites(text)) && d6 == d5.SetAll(Writes(AddressRule, text))
    requires d7 == d6.SetAll(PeaWrites(text)) && d8 == d7.SetAll(Writes(UsageRule, text))
    ensures d8 == d0.SetAll(HeaderWrites(text))
  {
    SetAllGroups(d0, d1, d2, d3, d4, d5, d6, d7, d8,
                 Writes(PrintedRule, text), Writes(CaRule, text), Writes(InvoiceNumberRule, text),
                 Writes(TotalAmountRule, text), DueDateWrites(text), Writes(AddressRule, text),
                 PeaWrites(text), Writes(UsageRule, text));
  }

  /* ---------------------------------------------------------------------- */
  /* What extract_data guarantees on a fresh record                          */

  /** The fields the rules before the tiers may fill, in the order they fill them. */
  const HeaderKeys: seq<string> :=
    PrintedRule.Keys() + CaRule.Keys() + InvoiceNumberRule.Keys() + TotalAmountRule.Keys()
    + ["due_date"] + AddressRule.Keys() + PeaKeys + UsageRule.Keys()

  /** Every field a rule of `extract_data` may fill. */
  const RuleKeys: seq<string> := HeaderKeys + TierKeys + ChargeKeys

  /** The header rules fill the invoice, meter and reading fields, in the record's own order. */
  lemma HeaderKeysAre()
    ensures HeaderKeys == InvoiceFields + MeterFields + UsageFields[..3]
  {
  }

  lemma TierKeysAre()
    ensures TierKeys == UsageFields[3..12]
  {
  }

  lemma ChargeKeysAre()
    ensures ChargeKeys == ChargeFields
  {
  }

  lemma UnitsOutside()
    ensures forall t :: 0 <= t < 3 ==> UnitsFields[t] !in InvoiceFields + MeterFields + UsageFields[..3]
    ensures forall t :: 0 <= t < 3 ==> UnitsFields[t] !in ChargeFields
  {
  }

  /** The rules fill only fields the fresh record has. */
  lemma RuleKeysInFields()
    ensures forall k :: k in RuleKeys ==> k in Fields
  {
    HeaderKeysAre();
    TierKeysAre();
    ChargeKeysAre();
    forall k | k in RuleKeys ensures k in Fields {
      if k in HeaderKeys {
        if k in UsageFields[..3] {
          assert k in UsageFields;
        }
      } else if k in TierKeys {
        assert k in UsageFields;
      }
    }
  }

  /** The fresh record has `total_usage_units` and each tier's units field. */
  lemma UnitsInFields()
    ensures "total_usage_units" in Fields
    ensures forall t :: 0 <= t < 3 ==> UnitsFields[t] in Fields
  {
    assert UsageFields[12] in UsageFields;
    forall t | 0 <= t < 3 ensures UnitsFields[t] in Fields {
      assert UnitsFields[t] == UsageFields[3 + 3 * t];
    }
  }

  /**
   * The rules fill only fields the fresh record has, and no rule outside the
   * tiers fills a tier's units.
   */
  lemma RuleKeysFacts()
    ensures forall k :: k in RuleKeys ==> k in Fields
    ensures "total_usage_units" in Fields
    ensures forall t :: 0 <= t < 3 ==> UnitsFields[t] !in HeaderKeys && UnitsFields[t] !in ChargeKeys
    ensures forall t :: 0 <= t < 3 ==> UnitsFields[t] in Fields
  {
    RuleKeysInFields();
    UnitsInFields();
    HeaderKeysAre();
    ChargeKeysAre();
    UnitsOutside();
  }

  lemma HeaderWithin(text: string)
    ensures Within(HeaderWrites(text), HeaderKeys)
  {
    RuleWithin(PrintedRule, text);
    RuleWithin(CaRule, text);
    RuleWithin(InvoiceNumberRule, text);
    RuleWithin(TotalAmountRule, text);
    WithinKeys(DueDateWrites(text), ["due_date"]);
    RuleWithin(AddressRule, text);
    WithinKeys(PeaWrites(text), PeaKeys);
    RuleWithin(UsageRule, text);
    WithinGroups(Writes(PrintedRule, text), Writes(CaRule, text), Writes(InvoiceNumberRule, text),
                 Writes(TotalAmountRule, text), DueDateWrites(text), Writes(AddressRule, text),
                 PeaWrites(text), Writes(UsageRule, text),
                 PrintedRule.Keys(), CaRule.Keys(), InvoiceNumberRule.Keys(), TotalAmountRule.Keys(),
                 ["due_date"], AddressRule.Keys(), PeaKeys, UsageRule.Keys());
  }

  /** Every rule fills only fields of the fresh record, so `extract_data` never adds a field. */
  lemma AllWithin(text: string)
    ensures Within(AllWrites(text), Fields)
  {
    HeaderWithin(text);
    TiersWithin(text);
    ChargesWithin(text);
    WithinConcat(HeaderWrites(text), TierWrites(text, 3), HeaderKeys, TierKeys);
    WithinConcat(HeaderWrites(text) + TierWrites(text, 3), ChargeWrites(text), HeaderKeys + TierKeys, ChargeKeys);
    RuleKeysFacts();
    WithinWiden(AllWrites(text), RuleKeys, Fields);
  }

  /** Setting `total_usage_units`, a field the record has, keeps its fields and their order. */
  lemma TotalUsageKeeps(d: Dict)
    requires d.Wf() && "total_usage_units" in d.keys
    ensures TotalUsage(d).Success? ==> TotalUsage(d).value.Wf() && TotalUsage(d).value.keys == d.keys
  {
    forall n: int ensures d.Set("total_usage_units", Number(n)).keys == d.keys {
      SetSpec(d, "total_usage_units", Number(n));
    }
  }

  /**
   * Whatever the text, the record `extract_data` leaves behind has exactly the
   * 37 fields of a fresh record, in the same order.
   */
  lemma ExtractKeepsFields(text: string)
    ensures Extracted(InitialData(), text).Wf()
    ensures Extracted(InitialData(), text).keys == Fields
  {
    if IsValidText(text) {
      var ws := AllWrites(text);
      AllWithin(text);
      RuleKeysFacts();
      SetAllKeys(InitialData(), ws);
      TotalUsageKeeps(InitialData().SetAll(ws));
    }
  }

  /** The tier line of row `t` of `traffic_matches` occurs in the text. */
  predicate TierFound(text: string, t: nat)
    requires t < |TrafficMatches|
  {
    TrafficMatchesWf();
    Search(text, TrafficMatches[t].0).Some?
  }

  /** The units a found tier line reports: the run of digits its first group captures. */
  function TierUnitsText(text: string, t: nat): (s: string)
    requires t < |TrafficMatches| && TierFound(text, t)
    ensures IsDigits(s)
  {
    TrafficMatchesWf();
    SearchGroupLang(text, TrafficMatches[t].0, 0);
    Search(text, TrafficMatches[t].0).value[0]
  }

  /** The units of tier `t`, counting a tier whose line is missing as 0. */
  function FoundUnits(text: string, t: nat): nat
    requires t < |TrafficMatches|
  {
    if TierFound(text, t) then ParseDigits(TierUnitsText(text, t)) else 0
  }

  predicate AllTiersFound(text: string) {
    TierFound(text, 0) && TierFound(text, 1) && TierFound(text, 2)
  }

  /** The total of the three tiers' units. */
  function UnitsTotal(text: string): nat {
    FoundUnits(text, 0) + FoundUnits(text, 1) + FoundUnits(text, 2)
  }

  /** Tier `t`'s own rule sets its units field to the captured units when its line is found. */
  lemma TierSetsUnits(d: Dict, t: nat, text: string)
    requires d.Wf() && t < |TrafficMatches|
    ensures d.SetAll(Writes(Tier(t), text)).Get(UnitsFields[t]) ==
      if TierFound(text, t) then Some(Text(TierUnitsText(text, t))) else d.Get(UnitsFields[t])
  {
    var ws := Writes(Tier(t), text);
    if TierFound(text, t) {
      assert Names(ws) == [TrafficMatches[t].1, TrafficMatches[t].2, TrafficMatches[t].3];
      assert ws[0].0 == Names(ws)[0] && ws[1].0 == Names(ws)[1] && ws[2].0 == Names(ws)[2];
      UnitsFieldsOfTable();
      assert ws[1].0 != ws[0].0 && ws[2].0 != ws[0].0 by {
        if t == 0 {} else if t == 1 {} else {}
      }
      SetAllLast(d, ws, 0);
    }
  }

  /** One tier's rule, applied to any record, sets tier `t`'s units as just described or leaves them. */
  lemma TierStep(d: Dict, u: nat, t: nat, text: string)
    requires d.Wf() && u < |TrafficMatches| && t < |TrafficMatches|
    ensures d.SetAll(Writes(Tier(u), text)).Get(UnitsFields[t]) ==
      if u == t && TierFound(text, t) then Some(Text(TierUnitsText(text, t))) else d.Get(UnitsFields[t])
  {
    if u == t {
      TierSetsUnits(d, t, text);
    } else {
      UnitsFieldsOfTable();
      TierLeavesOtherTiers(d, u, t, text, UnitsFields[t]);
    }
  }

  /** After all three tier rules, each units field holds its tier's captured units, or what it held. */
  lemma TiersSetUnits(d: Dict, t: nat, text: string)
    requires d.Wf() && t < |TrafficMatches|
    ensures d.SetAll(TierWrites(text, 3)).Get(UnitsFields[t]) ==
      if TierFound(text, t) then Some(Text(TierUnitsText(text, t))) else d.Get(UnitsFields[t])
  {
    var w0, w1, w2 := Writes(Tier(0), text), Writes(Tier(1), text), Writes(Tier(2), text);
    TierWritesThree(text);
    SetAllAppend(d, w0 + w1, w2);
    SetAllAppend(d, w0, w1);
    var d1 := d.SetAll(w0);
    var d2 := d1.SetAll(w1);
    TierStep(d, 0, t, text);
    TierStep(d1, 1, t, text);
    TierStep(d2, 2, t, text);
  }

  /** Tier `t`'s units field holds the units its line reports, or is still `None` when the line is missing. */
  predicate UnitsRead(w: Dict, text: string, t: nat)
    requires t < |TrafficMatches|
  {
    w.Get(UnitsFields[t]) == if TierFound(text, t) then Some(Text(TierUnitsText(text, t))) else Some(Absent)
  }

  /**
   * On a fresh record, once every rule has run, each tier's units field holds
   * the captured units when the tier line occurs and is still `None` when it
   * does not: no other rule touches those fields.
   */
  lemma UnitsAfterRules(text: string, t: nat)
    requires t < |TrafficMatches|
    ensures UnitsRead(InitialData().SetAll(AllWrites(text)), text, t)
  {
    var d0, h := InitialData(), HeaderWrites(text);
    HeaderWithin(text);
    ChargesWithin(text);
    RuleKeysFacts();
    WithinMiddle(d0, h, TierWrites(text, 3), ChargeWrites(text), HeaderKeys, ChargeKeys, UnitsFields[t]);
    TiersSetUnits(d0.SetAll(h), t, text);
  }

  /**
   * With each units field read as its tier line reports it, the total is the
   * sum of the three when every line occurs, and a `TypeError` otherwise,
   * because `float(None)` raises it and only `ValueError` is caught.
   */
  lemma TotalOfTiers(w: Dict, text: string)
    requires UnitsRead(w, text, 0) && UnitsRead(w, text, 1) && UnitsRead(w, text, 2)
    ensures AllTiersFound(text) ==> TotalUsage(w) == Success(w.Set("total_usage_units", Number(UnitsTotal(text))))
    ensures !AllTiersFound(text) ==> TotalUsage(w) == Failure(TypeError)
  {
  }

  /**
   * `extract_data` on a fresh record and an invoice text: when all three tier
   * lines occur, the record after every rule with `total_usage_units` set to
   * their total; when any is missing, a `TypeError`.
   */
  lemma ExtractOutcome(text: string)
    requires IsValidText(text)
    ensures AllTiersFound(text) ==>
      (Extract(InitialData(), text) ==
       Success(Some(InitialData().SetAll(AllWrites(text)).Set("total_usage_units", Number(UnitsTotal(text))))))
    ensures !AllTiersFound(text) ==> Extract(InitialData(), text) == Failure(TypeError)
  {
    UnitsAfterRules(text, 0);
    UnitsAfterRules(text, 1);
    UnitsAfterRules(text, 2);
    TotalOfTiers(InitialData().SetAll(AllWrites(text)), text);
  }

  /* ---------------------------------------------------------------------- */
  /* A missing tier: the code as written and as intended                    */

  /**
   * The conversion the `get(key, 0)` default evidently aims at: a units field
   * still at `None`, because its tier line never matched, counts as 0.
   */
  function IntendedFloat(v: Option<Value>): Conversion
  {
    if v == Some(Absent) then Converted(0) else Float(v)
  }

  /** `_calculate_total_usage_units` with an unmatched tier counted as 0. */
  function IntendedTotalUsage(d: Dict): (r: Result<Dict, Fault>)
    ensures d.Wf() && r.Success? ==> r.value.Wf()
  {
    var a := IntendedFloat(d.Get(UnitsFields[0]));
    var b := IntendedFloat(d.Get(UnitsFields[1]));
    var c := IntendedFloat(d.Get(UnitsFields[2]));
    if a.Raised? then Caught(d, a.e)
    else if b.Raised? then Caught(d, b.e)
    else if c.Raised? then Caught(d, c.e)
    else Success(d.Set("total_usage_units", Number(a.n + b.n + c.n)))
  }

  /** `extract_data` with the intended total. */
  function IntendedExtract(d: Dict, text: string): Result<Option<Dict>, Fault>
  {
    if !IsValidText(text) then Success(None)
    else
      match IntendedTotalUsage(d.SetAll(AllWrites(text)))
      case Success(r) => Success(Some(r))
      case Failure(e) => Failure(e)
  }

  /**
   * A record with the first two tiers read and the third never found: the code
   * as written raises `TypeError`, where the intended total is 100 + 20.
   */
  lemma MissingTierRaises(d: Dict)
    requires d.Get(UnitsFields[0]) == Some(Text("100")) && d.Get(UnitsFields[1]) == Some(Text("20"))
    requires d.Get(UnitsFields[2]) == Some(Absent)
    ensures TotalUsage(d) == Failure(TypeError)
    ensures IntendedTotalUsage(d) == Success(d.Set("total_usage_units", Number(120)))
  {
    assert ParseDigits("100") == 100 by {
      assert "100"[..2] == "10" && "10"[..1] == "1" && "1"[..0] == "";
    }
    assert ParseDigits("20") == 20 by {
      assert "20"[..1] == "2" && "2"[..0] == "";
    }
  }

  /** Such a record exists: the three tier fields, the last still `None`. */
  lemma MissingTierExample()
    ensures var d := Dict(UnitsFields, map[UnitsFields[0] := Text("100"), UnitsFields[1] := Text("20"), UnitsFields[2] := Absent]);
      TotalUsage(d) == Failure(TypeError)
  {
    var d := Dict(UnitsFields, map[UnitsFields[0] := Text("100"), UnitsFields[1] := Text("20"), UnitsFields[2] := Absent]);
    MissingTierRaises(d);
  }

  /**
   * What the rules leave in a tier's units field converts, as intended, to the
   * units its line reports, or to 0 when the line is missing.
   */
  lemma IntendedFloatOfTier(w: Dict, text: string, t: nat)
    requires t < |TrafficMatches| && UnitsRead(w, text, t)
    ensures IntendedFloat(w.Get(UnitsFields[t])) == Converted(FoundUnits(text, t))
  {
  }

  /** With the intended total, tiers whose lines are missing count as 0 and nothing raises. */
  lemma IntendedTotalOfTiers(w: Dict, text: string)
    requires UnitsRead(w, text, 0) && UnitsRead(w, text, 1) && UnitsRead(w, text, 2)
    ensures IntendedTotalUsage(w) == Success(w.Set("total_usage_units", Number(UnitsTotal(text))))
  {
  }

  /**
   * The intended `extract_data` on a fresh record and an invoice text always
   * yields the record after every rule with `total_usage_units` set to the sum
   * of the units of the tier lines that occur.
   */
  lemma IntendedExtractOutcome(text: string)
    requires IsValidText(text)
    ensures IntendedExtract(InitialData(), text) ==
      Success(Some(InitialData().SetAll(AllWrites(text)).Set("total_usage_units", Number(UnitsTotal(text)))))
  {
    UnitsAfterRules(text, 0);
    UnitsAfterRules(text, 1);
    UnitsAfterRules(text, 2);
    IntendedTotalOfTiers(InitialData().SetAll(AllWrites(text)), text);
  }

  /** Text that is not an invoice yields `None` and leaves the record as it was. */
  lemma ExtractRejects(d: Dict, text: string)
    requires !IsValidText(text)
    ensures Extract(d, text) == Success(None) && Extracted(d, text) == d
  {
  }
}
