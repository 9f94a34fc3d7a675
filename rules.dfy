/**
 * The extraction rules of `InvoiceExtractor`: for each rule its pattern, the
 * fields it fills and from which capture group, and the assignments it makes
 * for a given invoice text. A rule that finds nothing assigns nothing.
 */
module Rules {
  import opened Wrappers
  import opened Text
  import opened Regex
  import opened Record
  import opened ThaiCalendar

  /** Optional whitespace. */
  const Ws: Atom := Star(Space)

  /** A money amount: digits and thousands commas, a decimal point, digits. */
  const Amount: seq<Atom> := [Plus(DigitOrComma), Lit("."), Plus(Digit)]

  /** A decimal number without commas. */
  const Decimal: seq<Atom> := [Plus(Digit), Lit("."), Plus(Digit)]

  /**
   * A rule that copies capture groups into fields: `targets[i]` names a field
   * and the index of the group stored there.
   */
  datatype Rule = Rule(pat: Pattern, targets: seq<(string, nat)>) {
    predicate Wf() {
      pat.Wf() && forall i :: 0 <= i < |targets| ==> targets[i].1 < |pat.groups|
    }

    /** The fields the rule fills, in the order it fills them. */
    function Keys(): (r: seq<string>)
      ensures |r| == |targets| && forall i :: 0 <= i < |r| ==> r[i] == targets[i].0
    {
      seq(|targets|, i requires 0 <= i < |targets| => targets[i].0)
    }
  }

  /** A rule whose pattern is well formed and whose targets name groups it has. */
  type WfRule = r: Rule | r.Wf() witness Rule(Pattern([], []), [])

  /**
   * The assignments a rule's targets make from the outcome of its search:
   * nothing without a match, and otherwise every target field, in order, the
   * text of its group.
   */
  function Assign(targets: seq<(string, nat)>, m: Option<seq<string>>): (ws: seq<(string, Value)>)
    requires m.Some? ==> forall i :: 0 <= i < |targets| ==> targets[i].1 < |m.value|
    ensures m.None? ==> ws == []
    ensures m.Some? ==> |ws| == |targets|
  {
    match m
    case None => []
    case Some(g) =>
      seq(|targets|, i requires 0 <= i < |targets| => (targets[i].0, Text(g[targets[i].1])))
  }

  /** What a rule assigns in a given text. */
  function Writes(rule: WfRule, text: string): (ws: seq<(string, Value)>)
    ensures Search(text, rule.pat).None? ==> ws == []
    ensures Search(text, rule.pat).Some? ==> Names(ws) == rule.Keys()
    ensures forall i :: 0 <= i < |ws| ==>
      ws[i].1 == Text(Search(text, rule.pat).value[rule.targets[i].1])
  {
    Assign(rule.targets, Search(text, rule.pat))
  }

  /** A rule writes either every one of its fields or none of them. */
  lemma WritesAllOrNothing(rule: WfRule, text: string)
    ensures var ws := Writes(rule, text); ws == [] || Names(ws) == rule.Keys()
    ensures Writes(rule, text) == [] <==> Search(text, rule.pat).None? || rule.targets == []
  {
  }

  /** A rule assigns only the fields it targets. */
  lemma RuleWithin(rule: WfRule, text: string)
    ensures Within(Writes(rule, text), rule.Keys())
  {
    WritesAllOrNothing(rule, text);
    WithinKeys(Writes(rule, text), rule.Keys());
  }

  /** The caption, whitespace, a bracketed tag, whitespace and a captured amount. */
  function LabelledAmount(caption: string, tag: string): (p: Pattern)
    ensures p.Wf() && |p.groups| == 1
  {
    Pattern([Lit(caption), Ws, Lit(tag), Ws] + Amount, [Group(4, 7)])
  }

  /* ---------------------------------------------------------------------- */
  /* The header fields                                                       */

  /** The print stamp: a `DD-MM-YYYY` date and an `HH:MM:SS` time. */
  const PrintedRule: WfRule := Rule(
    Pattern([Lit("*Printed"), Ws, Lit(":"), Ws,
             Exactly(Digit, 2), Lit("-"), Exactly(Digit, 2), Lit("-"), Exactly(Digit, 4), Ws,
             Exactly(Digit, 2), Lit(":"), Exactly(Digit, 2), Lit(":"), Exactly(Digit, 2)],
            [Group(4, 9), Group(10, 15)]),
    [("printed_date", 0), ("printed_time", 1)])

  /** The customer account: the run of digits after its Thai label. */
  const CaRule: WfRule := Rule(
    Pattern([Lit("หมายเลขผู้ใช้ไฟฟ้า"), Ws, Plus(Digit)], [Group(2, 3)]),
    [("customer_account", 0)])

  /** The invoice number: the run of digits after its Thai label. */
  const InvoiceNumberRule: WfRule := Rule(
    Pattern([Lit("เลขที่ใบแจ้งค่าไฟฟ้า"), Ws, Plus(Digit)], [Group(2, 3)]),
    [("invoice_number", 0)])

  /** The amount in baht. */
  const TotalAmountRule: WfRule := Rule(LabelledAmount("จำนวนเงิน", "(บาท)"), [("total_amount_baht", 0)])

  /**
   * The service address: the shortest non-empty text before `Due Date`. The
   * greedy `\s*` before it takes the whitespace first, but gives back one
   * whitespace character when only whitespace stands before `Due Date`, so the
   * capture is usually, not always, free of surrounding whitespace.
   */
  const AddressRule: WfRule := Rule(
    Pattern([Lit("สถานที่ใช้ไฟฟ้า"), Ws, LazyPlus(NotNewline), Ws, Lit("Due Date")], [Group(2, 3)]),
    [("customer_address", 0)])

  /** The due date: day digits, a month name, year digits. */
  const DueDatePattern: Pattern :=
    Pattern([Lit("วันที่ครบกำหนดค่าไฟฟ้าเดือนปัจจุบัน"), Ws, Plus(Digit), Ws, Plus(NonSpace), Ws, Plus(Digit)],
            [Group(2, 3), Group(4, 5), Group(6, 7)])

  /** `_extract_due_date`: the Thai date rewritten as day, month number and Gregorian year. */
  function DueDateWrites(text: string): (ws: seq<(string, Value)>)
    ensures Search(text, DueDatePattern).None? ==> ws == []
    ensures Search(text, DueDatePattern).Some? ==> Names(ws) == ["due_date"]
  {
    match Search(text, DueDatePattern)
    case None => []
    case Some(g) =>
      SearchGroupLang(text, DueDatePattern, 2);
      [("due_date", Text(DueDate(g[0], g[1], g[2])))]
  }

  /** The due date written is the captured day, the month number of the captured name, and the year less 543. */
  lemma DueDateWritten(text: string)
    requires Search(text, DueDatePattern).Some?
    ensures var g := Search(text, DueDatePattern).value;
      && AllDigits(g[2])
      && DueDateWrites(text) == [("due_date", Text(DueDate(g[0], g[1], g[2])))]
      && IsDigits(g[0]) && |g[1]| > 0 && NoSpace(g[1])
  {
    SearchGroupLang(text, DueDatePattern, 0);
    SearchGroupLang(text, DueDatePattern, 1);
    SearchGroupLang(text, DueDatePattern, 2);
  }

  /* ---------------------------------------------------------------------- */
  /* The PEA code and meter row                                              */

  /** The header line of the meter table; its `.` after `No` stands for any one character. */
  const PeaMarker: Pattern :=
    Pattern([Lit("PEA Code MRU PEA No"), Exactly(NotNewline, 1), Lit(" Type Meter Reading Date Bill Period Voltage Level Multi")], [])

  /** The header followed by whitespace, a newline and a non-empty line, which is captured. */
  const PeaNextLine: Pattern :=
    Pattern(PeaMarker.atoms + [Ws, Lit("\n"), Plus(NotNewline)], [Group(5, 6)])

  /** The eight meter fields, in the order the row lists them. */
  const PeaKeys: seq<string> := [
    "pea_code", "mru", "meter_number", "meter_type",
    "meter_reading_date", "billing_period", "voltage_level", "multiplier"]

  /**
   * The positional mapping of a row's tokens: the first six tokens one per
   * field, the seventh and eighth joined by a space as the voltage level, and
   * the ninth, or `-` when there is none, as the multiplier. A row of fewer
   * than eight tokens fills nothing.
   */
  function PeaRow(values: seq<string>): (ws: seq<(string, Value)>)
    ensures |values| < 8 ==> ws == []
    ensures |values| >= 8 ==> Names(ws) == PeaKeys
  {
    if |values| < 8 then []
    else
      [("pea_code", Text(values[0])),
       ("mru", Text(values[1])),
       ("meter_number", Text(values[2])),
       ("meter_type", Text(values[3])),
       ("meter_reading_date", Text(values[4])),
       ("billing_period", Text(values[5])),
       ("voltage_level", Text(Join(values[6..8], " "))),
       ("multiplier", Text(if |values| > 8 then values[8] else "-"))]
  }

  /** `_extract_pea_code_section`: the line after the header, stripped and split, mapped by position. */
  function PeaWrites(text: string): (ws: seq<(string, Value)>)
    ensures ws == [] || Names(ws) == PeaKeys
  {
    if Search(text, PeaMarker).None? then []
    else
      match Search(text, PeaNextLine)
      case None => []
      case Some(g) => PeaRow(Split(Strip(g[0])))
  }

  /** The header test before the line search decides nothing: finding the line means finding the header. */
  lemma PeaMarkerImplied(text: string)
    ensures Search(text, PeaNextLine).Some? ==> Search(text, PeaMarker).Some?
    ensures PeaWrites(text) == match Search(text, PeaNextLine)
      case None => []
      case Some(g) => PeaRow(Split(g[0]))
  {
    if Search(text, PeaNextLine).Some? {
      SearchPrefix(text, PeaMarker.atoms, [Ws, Lit("\n"), Plus(NotNewline)], [], [Group(5, 6)]);
      SplitStrip(Search(text, PeaNextLine).value[0]);
    }
  }

  /** The voltage level is the seventh and eighth tokens with one space between them. */
  function VoltageLevel(values: seq<string>): string
    requires |values| >= 8
  {
    values[6] + " " + values[7]
  }

  /**
   * Reading the row back: the six single-token fields followed by the tokens of
   * the voltage level give the first eight tokens again, and the multiplier is
   * the ninth token or `-`.
   */
  lemma PeaRowRoundTrip(values: seq<string>)
    requires |values| >= 8
    requires forall i :: 0 <= i < |values| ==> |values[i]| > 0 && NoSpace(values[i])
    ensures var ws := PeaRow(values);
      && (forall i :: 0 <= i < 8 ==> ws[i].1.Text?)
      && [ws[0].1.s, ws[1].1.s, ws[2].1.s, ws[3].1.s, ws[4].1.s, ws[5].1.s] + Split(ws[6].1.s) == values[..8]
      && ws[6].1.s == VoltageLevel(values)
      && ws[7].1.s == (if |values| > 8 then values[8] else "-")
  {
    var pair := values[6..8];
    assert Join(pair, " ") == values[6] + " " + values[7] by {
      assert pair[1..] == [values[7]];
    }
    SplitJoin(pair);
    assert values[..8] == values[..6] + pair;
  }

  /* ---------------------------------------------------------------------- */
  /* Meter readings and the three usage tiers                                */

  /** Recent reading, previous reading and units consumed, three decimals in a row. */
  const UsageRule: WfRule := Rule(
    Pattern([Lit("พลังงานไฟฟ้า"), Ws] + Decimal + [Ws] + Decimal + [Ws] + Decimal,
            [Group(2, 5), Group(6, 9), Group(10, 13)]),
    [("recent_reading", 0), ("previous_reading", 1), ("consumption_units", 2)])

  /** A tier line: its caption, the units as digits, the unit word, the rate and the amount. */
  function TierPattern(caption: string): (p: Pattern)
    ensures p.Wf() && |p.groups| == 3
  {
    Pattern([Lit(caption), Ws, Plus(Digit), Ws, Lit("หน่วย"), Ws] + Amount + [Ws] + Amount,
            [Group(2, 3), Group(6, 9), Group(10, 13)])
  }

  /** `traffic_matches`: each tier's pattern and its units, rate and amount fields. */
  /** The tier line for units 1 to 150. */
  const Tier1To150: Pattern := TierPattern("(หน่วยที่ 1-150)")

  /** The tier line for units 151 to 400. */
  const Tier151To400: Pattern := TierPattern("(หน่วยที่ 151-400)")

  /** The tier line for units from 401 on. */
  const TierOver401: Pattern := TierPattern("(หน่วยที่ 401 เป็นต้นไป)")

  /** `traffic_matches`: each tier's pattern and its units, rate and amount fields. */
  const TrafficMatches: seq<(Pattern, string, string, string)> := [
    (Tier1To150, "usage_1_150_units", "usage_1_150_baht_per_unit", "usage_1_150_total_baht"),
    (Tier151To400, "usage_151_400_units", "usage_151_400_baht_per_unit", "usage_151_400_total_baht"),
    (TierOver401, "usage_over_401_units", "usage_over_401_baht_per_unit", "usage_over_401_total_baht")]

  /** An entry of `traffic_matches` read as a rule: groups 1, 2 and 3 into its three fields. */
  function TierRule(t: (Pattern, string, string, string)): (r: WfRule)
    requires t.0.Wf() && |t.0.groups| == 3
    ensures r.Keys() == [t.1, t.2, t.3]
  {
    Rule(t.0, [(t.1, 0), (t.2, 1), (t.3, 2)])
  }

  lemma TrafficMatchesWf()
    ensures forall i :: 0 <= i < |TrafficMatches| ==> TrafficMatches[i].0.Wf() && |TrafficMatches[i].0.groups| == 3
  {
  }

  /** The tier rule for row `t` of the table. */
  function Tier(t: nat): (r: WfRule)
    requires t < |TrafficMatches|
  {
    TrafficMatchesWf();
    TierRule(TrafficMatches[t])
  }

  /** The assignments of the first `n` tiers, in table order. */
  function TierWrites(text: string, n: nat): seq<(string, Value)>
    requires n <= |TrafficMatches|
  {
    if n == 0 then [] else TierWrites(text, n - 1) + Writes(Tier(n - 1), text)
  }

  /** Each tier fills its units, rate and amount fields all together or not at all. */
  lemma TierAllOrNothing(t: nat, text: string)
    requires t < |TrafficMatches|
    ensures var ws := Writes(Tier(t), text);
      || ws == []
      || Names(ws) == [TrafficMatches[t].1, TrafficMatches[t].2, TrafficMatches[t].3]
  {
    WritesAllOrNothing(Tier(t), text);
  }

  /** Every field of tier `t`. */
  function TierFields(t: nat): seq<string>
    requires t < |TrafficMatches|
  {
    [TrafficMatches[t].1, TrafficMatches[t].2, TrafficMatches[t].3]
  }

  /** One tier's rule leaves every field of every other tier as it was. */
  lemma TierLeavesOtherTiers(d: Dict, t: nat, u: nat, text: string, k: string)
    requires d.Wf() && t < |TrafficMatches| && u < |TrafficMatches| && t != u
    requires k in TierFields(u)
    ensures d.SetAll(Writes(Tier(t), text)).Get(k) == d.Get(k)
  {
    var ws := Writes(Tier(t), text);
    WritesAllOrNothing(Tier(t), text);
    forall i | 0 <= i < |ws| ensures ws[i].0 != k {
      assert ws[i].0 == Names(ws)[i] && Names(ws)[i] in TierFields(t);
    }
    SetAllOthers(d, ws, k);
  }

  /** The three tier rules' assignments, one after another. */
  lemma TierWritesThree(text: string)
    ensures TierWrites(text, 3) == Writes(Tier(0), text) + Writes(Tier(1), text) + Writes(Tier(2), text)
  {
    assert TierWrites(text, 1) == Writes(Tier(0), text);
    assert TierWrites(text, 2) == Writes(Tier(0), text) + Writes(Tier(1), text);
  }

  /** The nine fields of the three tiers, in table order. */
  const TierKeys: seq<string> := TierFields(0) + TierFields(1) + TierFields(2)

  /** The tier rules assign only the fields of the tiers. */
  lemma TiersWithin(text: string)
    ensures Within(TierWrites(text, 3), TierKeys)
  {
    TierWritesThree(text);
    RuleWithin(Tier(0), text);
    RuleWithin(Tier(1), text);
    RuleWithin(Tier(2), text);
    WithinConcat(Writes(Tier(0), text), Writes(Tier(1), text), TierFields(0), TierFields(1));
    WithinConcat(Writes(Tier(0), text) + Writes(Tier(1), text), Writes(Tier(2), text),
                 TierFields(0) + TierFields(1), TierFields(2));
  }

  /* ---------------------------------------------------------------------- */
  /* Charges and totals                                                      */

  const ServiceChargeRule: WfRule := Rule(LabelledAmount("ค่าบริการรายเดือน", "(Service Charge)"), [("service_charge_baht", 0)])
  const TotalBasedAmountRule: WfRule := Rule(LabelledAmount("รวมเงินค่าไฟฟ้าฐาน", "(Total Based Amount)"), [("total_based_amount_baht", 0)])
  const BaseAmountRule: WfRule := Rule(LabelledAmount("เงินค่าไฟฟ้าฐาน", "(Based Amount)"), [("base_amount_baht", 0)])

  /** The Ft line: any text up to `=`, the Ft rate per unit, then the Ft amount. */
  const FtRule: WfRule := Rule(
    Pattern([Lit("ค่า Ft"), Star(NotNewline), Lit("="), Ws] + Amount + [Ws, Lit("บาท/หน่วย"), Ws] + Amount,
            [Group(4, 7), Group(10, 13)]),
    [("ft_adjustment_baht", 1)])

  const SubtotalRule: WfRule := Rule(LabelledAmount("รวมเงินค่าไฟฟ้า", "(Sub Total)"), [("subtotal_baht", 0)])

  /** The VAT line: the percentage, `%`, the `(VAT)` tag and the amount. */
  const VatRule: WfRule := Rule(
    Pattern([Lit("ภาษีมูลค่าเพิ่ม"), Ws] + Decimal + [Ws, Lit("%"), Ws, Lit("(VAT)"), Ws] + Amount,
            [Group(2, 5), Group(10, 13)]),
    [("vat_percent", 0), ("vat_amount_baht", 1)])

  const TotalRule: WfRule := Rule(LabelledAmount("รวมเงินค่าไฟฟ้าเดือนปัจจุบัน", "(Total)"), [("total_baht", 0)])
  const GrandTotalRule: WfRule := Rule(LabelledAmount("รวมเงินทั้งสิ้น", "(Grand Total)"), [("grand_total_baht", 0)])

  /** The assignments of `_extract_service_charge_and_totals`, rule by rule in the order it applies them. */
  function ChargeWrites(text: string): seq<(string, Value)> {
    Writes(ServiceChargeRule, text) + Writes(TotalBasedAmountRule, text) + Writes(BaseAmountRule, text)
    + Writes(FtRule, text) + Writes(SubtotalRule, text) + Writes(VatRule, text)
    + Writes(TotalRule, text) + Writes(GrandTotalRule, text)
  }

  /** The fields `_extract_service_charge_and_totals` may fill, in the order its rules fill them. */
  const ChargeKeys: seq<string> :=
    ServiceChargeRule.Keys() + TotalBasedAmountRule.Keys() + BaseAmountRule.Keys() + FtRule.Keys()
    + SubtotalRule.Keys() + VatRule.Keys() + TotalRule.Keys() + GrandTotalRule.Keys()

  /** The charge rules assign only the charge fields. */
  lemma ChargesWithin(text: string)
    ensures Within(ChargeWrites(text), ChargeKeys)
  {
    RuleWithin(ServiceChargeRule, text);
    RuleWithin(TotalBasedAmountRule, text);
    RuleWithin(BaseAmountRule, text);
    RuleWithin(FtRule, text);
    RuleWithin(SubtotalRule, text);
    RuleWithin(VatRule, text);
    RuleWithin(TotalRule, text);
    RuleWithin(GrandTotalRule, text);
    WithinGroups(Writes(ServiceChargeRule, text), Writes(TotalBasedAmountRule, text), Writes(BaseAmountRule, text),
                 Writes(FtRule, text), Writes(SubtotalRule, text), Writes(VatRule, text),
                 Writes(TotalRule, text), Writes(GrandTotalRule, text),
                 ServiceChargeRule.Keys(), TotalBasedAmountRule.Keys(), BaseAmountRule.Keys(), FtRule.Keys(),
                 SubtotalRule.Keys(), VatRule.Keys(), TotalRule.Keys(), GrandTotalRule.Keys());
  }

  /** Of the Ft line's two amounts only the second, the Ft charge, is kept; the rate is dropped. */
  lemma FtKeepsSecondAmount(text: string)
    ensures match Search(text, FtRule.pat)
      case None => Writes(FtRule, text) == []
      case Some(g) => Writes(FtRule, text) == [("ft_adjustment_baht", Text(g[1]))]
  {
  }
}
