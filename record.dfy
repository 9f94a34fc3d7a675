/**
 * The record an invoice is read into: an insertion-ordered dictionary from
 * field names to values, as a Python `dict` is, and the fixed set of 37 fields
 * every fresh record starts with.
 */
module Record {
  import opened Wrappers
  import opened Dates

  /**
   * A field value: `None`, a captured string, the number `total_usage_units`
   * holds, or the `datetime` that `save_to_csv` puts into `printed_date`.
   */
  datatype Value = Absent | Text(s: string) | Number(n: int) | DateValue(d: Date)

  /** The Python exceptions the modelled code can raise. */
  datatype Fault = TypeError | ValueError | KeyError

  /** An insertion-ordered dictionary: `keys` lists the keys in the order they were added. */
  datatype Dict = Dict(keys: seq<string>, vals: map<string, Value>) {

    /** The keys are distinct and are exactly the keys of the map. */
    predicate Wf() {
      && Distinct(keys)
      && (forall k :: k in keys ==> k in vals)
      && (forall k :: k in vals ==> k in keys)
    }

    /** `d.get(k)`, with `None` for a key that is not there. */
    function Get(k: string): Option<Value> {
      if k in vals then Some(vals[k]) else None
    }

    /** `d[k] = v`: an existing key keeps its place, a new key goes last. */
    function Set(k: string, v: Value): (r: Dict)
      ensures Wf() ==> r.Wf()
    {
      AddKeySpec(keys, k);
      Dict(AddKey(keys, k), vals[k := v])
    }

    /** `d.pop(k, None)`: the key goes, the others keep their order. */
    function Pop(k: string): (r: Dict)
      requires Wf()
      ensures r.Wf()
      ensures r.Get(k) == None
      ensures forall k' :: k' != k ==> r.Get(k') == Get(k')
      ensures r.keys == Without(keys, k)
    {
      WithoutSpec(keys, k);
      Dict(Without(keys, k), vals - {k})
    }

    /** Assign each pair of `ws` in turn. */
    function SetAll(ws: seq<(string, Value)>): (r: Dict)
      ensures Wf() ==> r.Wf()
      decreases |ws|
    {
      if ws == [] then this else Set(ws[0].0, ws[0].1).SetAll(ws[1..])
    }
  }

  /** No key occurs twice. */
  predicate Distinct(ks: seq<string>) {
    forall i, j :: 0 <= i < j < |ks| ==> ks[i] != ks[j]
  }

  /** `ks` with `k` appended unless it is already there. */
  function AddKey(ks: seq<string>, k: string): seq<string> {
    if ks == [] then [k]
    else if ks[0] == k then ks
    else [ks[0]] + AddKey(ks[1..], k)
  }

  lemma {:induction false} AddKeySpec(ks: seq<string>, k: string)
    ensures k in ks ==> AddKey(ks, k) == ks
    ensures k !in ks ==> AddKey(ks, k) == ks + [k]
  {
    if ks != [] && ks[0] != k {
      AddKeySpec(ks[1..], k);
      assert ks == [ks[0]] + ks[1..];
    }
  }

  /** After `d[k] = v`, `k` holds `v`, every other key holds what it held, and the key order is kept. */
  lemma SetSpec(d: Dict, k: string, v: Value)
    requires d.Wf()
    ensures d.Set(k, v).Get(k) == Some(v)
    ensures forall k' :: k' != k ==> d.Set(k, v).Get(k') == d.Get(k')
    ensures k in d.keys ==> d.Set(k, v).keys == d.keys
    ensures k !in d.keys ==> d.Set(k, v).keys == d.keys + [k]
  {
    AddKeySpec(d.keys, k);
  }

  /** `ks` with every occurrence of `k` removed, the rest in order. */
  function Without(ks: seq<string>, k: string): (r: seq<string>)
    ensures |r| <= |ks|
  {
    if ks == [] then []
    else if ks[0] == k then Without(ks[1..], k)
    else [ks[0]] + Without(ks[1..], k)
  }

  lemma {:induction false} WithoutSpec(ks: seq<string>, k: string)
    requires Distinct(ks)
    ensures forall x :: x in Without(ks, k) <==> x in ks && x != k
    ensures Distinct(Without(ks, k))
  {
    if ks != [] {
      WithoutSpec(ks[1..], k);
      if ks[0] != k {
        var r, rest := Without(ks, k), Without(ks[1..], k);
        assert ks[0] !in ks[1..] by {
          forall j | 0 <= j < |ks[1..]| ensures ks[1..][j] != ks[0] {
            assert ks[1..][j] == ks[j + 1];
          }
        }
        forall i, j | 0 <= i < j < |r| ensures r[i] != r[j] {
          assert r[j] == rest[j - 1];
          if i > 0 {
            assert r[i] == rest[i - 1];
          } else {
            assert r[0] == ks[0];
            assert rest[j - 1] in rest;
          }
        }
      }
    }
  }

  /** The keys a sequence of assignments names, in order. */
  function Names(ws: seq<(string, Value)>): (r: seq<string>)
    ensures |r| == |ws| && forall i :: 0 <= i < |ws| ==> r[i] == ws[i].0
  {
    seq(|ws|, i requires 0 <= i < |ws| => ws[i].0)
  }

  /** Assigning `a` and then `b` is assigning `a + b`. */
  lemma {:induction false} SetAllAppend(d: Dict, a: seq<(string, Value)>, b: seq<(string, Value)>)
    ensures d.SetAll(a + b) == d.SetAll(a).SetAll(b)
    decreases |a|
  {
    if a == [] {
      assert a + b == b;
    } else {
      var d' := d.Set(a[0].0, a[0].1);
      assert (a + b)[0] == a[0] && (a + b)[1..] == a[1..] + b;
      assert d.SetAll(a + b) == d'.SetAll(a[1..] + b);
      SetAllAppend(d', a[1..], b);
    }
  }

  lemma SetAllOne(d: Dict, ws: seq<(string, Value)>)
    requires |ws| == 1
    ensures d.SetAll(ws) == d.Set(ws[0].0, ws[0].1)
  {
    assert ws[1..] == [];
  }

  lemma SetAllTwo(d: Dict, ws: seq<(string, Value)>)
    requires |ws| == 2
    ensures d.SetAll(ws) == d.Set(ws[0].0, ws[0].1).Set(ws[1].0, ws[1].1)
  {
    SetAllOne(d.Set(ws[0].0, ws[0].1), ws[1..]);
  }

  lemma SetAllThree(d: Dict, ws: seq<(string, Value)>)
    requires |ws| == 3
    ensures d.SetAll(ws) == d.Set(ws[0].0, ws[0].1).Set(ws[1].0, ws[1].1).Set(ws[2].0, ws[2].1)
  {
    SetAllTwo(d.Set(ws[0].0, ws[0].1), ws[1..]);
  }

  lemma SetAllFour(d: Dict, ws: seq<(string, Value)>)
    requires |ws| == 4
    ensures d.SetAll(ws) == d.Set(ws[0].0, ws[0].1).Set(ws[1].0, ws[1].1).Set(ws[2].0, ws[2].1).Set(ws[3].0, ws[3].1)
  {
    SetAllThree(d.Set(ws[0].0, ws[0].1), ws[1..]);
  }

  lemma SetAllEight(d: Dict, ws: seq<(string, Value)>)
    requires |ws| == 8
    ensures d.SetAll(ws) ==
      d.Set(ws[0].0, ws[0].1).Set(ws[1].0, ws[1].1).Set(ws[2].0, ws[2].1).Set(ws[3].0, ws[3].1)
       .Set(ws[4].0, ws[4].1).Set(ws[5].0, ws[5].1).Set(ws[6].0, ws[6].1).Set(ws[7].0, ws[7].1)
  {
    var lo, hi := ws[..4], ws[4..];
    assert lo + hi == ws;
    SetAllAppend(d, lo, hi);
    SetAllFour(d, lo);
    SetAllFour(d.SetAll(lo), hi);
  }

  /** A state reached by assigning `a` and then `b` is the state `a + b` reaches. */
  lemma SetAllStep(d: Dict, mid: Dict, after: Dict, a: seq<(string, Value)>, b: seq<(string, Value)>)
    requires mid == d.SetAll(a) && after == mid.SetAll(b)
    ensures after == d.SetAll(a + b)
  {
    SetAllAppend(d, a, b);
  }

  /** Assigning eight groups one after another, through the states `d1` to `d8`, is assigning their concatenation. */
  lemma SetAllGroups(d0: Dict, d1: Dict, d2: Dict, d3: Dict, d4: Dict, d5: Dict, d6: Dict, d7: Dict, d8: Dict,
                     w1: seq<(string, Value)>, w2: seq<(string, Value)>, w3: seq<(string, Value)>, w4: seq<(string, Value)>, w5: seq<(string, Value)>, w6: seq<(string, Value)>, w7: seq<(string, Value)>, w8: seq<(string, Value)>)
    requires d1 == d0.SetAll(w1) && d2 == d1.SetAll(w2) && d3 == d2.SetAll(w3) && d4 == d3.SetAll(w4)
    requires d5 == d4.SetAll(w5) && d6 == d5.SetAll(w6) && d7 == d6.SetAll(w7) && d8 == d7.SetAll(w8)
    ensures d8 == d0.SetAll(w1 + w2 + w3 + w4 + w5 + w6 + w7 + w8)
  {
    SetAllStep(d0, d1, d2, w1, w2);
    SetAllStep(d0, d2, d3, w1 + w2, w3);
    SetAllStep(d0, d3, d4, w1 + w2 + w3, w4);
    SetAllStep(d0, d4, d5, w1 + w2 + w3 + w4, w5);
    SetAllStep(d0, d5, d6, w1 + w2 + w3 + w4 + w5, w6);
    SetAllStep(d0, d6, d7, w1 + w2 + w3 + w4 + w5 + w6, w7);
    SetAllStep(d0, d7, d8, w1 + w2 + w3 + w4 + w5 + w6 + w7, w8);
  }

  /** Every pair of `ws` names one of the keys `ks`. */
  predicate Within(ws: seq<(string, Value)>, ks: seq<string>) {
    forall i :: 0 <= i < |ws| ==> ws[i].0 in ks
  }

  /** Assignments within `ka` followed by assignments within `kb` stay within `ka + kb`. */
  lemma WithinConcat(a: seq<(string, Value)>, b: seq<(string, Value)>, ka: seq<string>, kb: seq<string>)
    requires Within(a, ka) && Within(b, kb)
    ensures Within(a + b, ka + kb)
  {
    forall i | 0 <= i < |a + b| ensures (a + b)[i].0 in ka + kb {
      if i < |a| {
        assert (a + b)[i] == a[i];
      } else {
        assert (a + b)[i] == b[i - |a|];
      }
    }
  }

  /** Assignments that name nothing, or exactly the keys `ks`, stay within `ks`. */
  lemma WithinKeys(ws: seq<(string, Value)>, ks: seq<string>)
    requires ws == [] || Names(ws) == ks
    ensures Within(ws, ks)
  {
    forall i | 0 <= i < |ws| ensures ws[i].0 in ks {
      assert Names(ws)[i] == ws[i].0;
    }
  }

  /** Eight groups of assignments, each within its own keys, stay within the concatenated keys. */
  lemma WithinGroups(w1: seq<(string, Value)>, w2: seq<(string, Value)>, w3: seq<(string, Value)>, w4: seq<(string, Value)>,
                     w5: seq<(string, Value)>, w6: seq<(string, Value)>, w7: seq<(string, Value)>, w8: seq<(string, Value)>,
                     k1: seq<string>, k2: seq<string>, k3: seq<string>, k4: seq<string>,
                     k5: seq<string>, k6: seq<string>, k7: seq<string>, k8: seq<string>)
    requires Within(w1, k1) && Within(w2, k2) && Within(w3, k3) && Within(w4, k4)
    requires Within(w5, k5) && Within(w6, k6) && Within(w7, k7) && Within(w8, k8)
    ensures Within(w1 + w2 + w3 + w4 + w5 + w6 + w7 + w8, k1 + k2 + k3 + k4 + k5 + k6 + k7 + k8)
  {
    WithinConcat(w1, w2, k1, k2);
    WithinConcat(w1 + w2, w3, k1 + k2, k3);
    WithinConcat(w1 + w2 + w3, w4, k1 + k2 + k3, k4);
    WithinConcat(w1 + w2 + w3 + w4, w5, k1 + k2 + k3 + k4, k5);
    WithinConcat(w1 + w2 + w3 + w4 + w5, w6, k1 + k2 + k3 + k4 + k5, k6);
    WithinConcat(w1 + w2 + w3 + w4 + w5 + w6, w7, k1 + k2 + k3 + k4 + k5 + k6, k7);
    WithinConcat(w1 + w2 + w3 + w4 + w5 + w6 + w7, w8, k1 + k2 + k3 + k4 + k5 + k6 + k7, k8);
  }

  lemma WithinWiden(ws: seq<(string, Value)>, ks: seq<string>, wider: seq<string>)
    requires Within(ws, ks) && forall k :: k in ks ==> k in wider
    ensures Within(ws, wider)
  {
  }

  /** Assignments naming only keys outside `ks` leave every key of `ks` as it was. */
  lemma WithinOthers(d: Dict, ws: seq<(string, Value)>, ks: seq<string>, k: string)
    requires d.Wf() && Within(ws, ks) && k !in ks
    ensures d.SetAll(ws).Get(k) == d.Get(k)
  {
    SetAllOthers(d, ws, k);
  }

  /** A key that neither the first nor the last group names ends up as the middle group leaves it. */
  lemma WithinMiddle(d: Dict, a: seq<(string, Value)>, b: seq<(string, Value)>, c: seq<(string, Value)>,
                     ka: seq<string>, kc: seq<string>, k: string)
    requires d.Wf() && Within(a, ka) && Within(c, kc) && k !in ka && k !in kc
    ensures d.SetAll(a).Wf() && d.SetAll(a).Get(k) == d.Get(k)
    ensures d.SetAll(a + b + c).Get(k) == d.SetAll(a).SetAll(b).Get(k)
  {
    SetAllAppend(d, a + b, c);
    SetAllAppend(d, a, b);
    WithinOthers(d, a, ka, k);
    WithinOthers(d.SetAll(a).SetAll(b), c, kc, k);
  }

  /** Assigning pairs leaves the keys none of them names as they were. */
  lemma {:induction false} SetAllOthers(d: Dict, ws: seq<(string, Value)>, k: string)
    requires d.Wf()
    requires forall i :: 0 <= i < |ws| ==> ws[i].0 != k
    ensures d.SetAll(ws).Get(k) == d.Get(k)
    decreases |ws|
  {
    if ws != [] {
      SetSpec(d, ws[0].0, ws[0].1);
      SetAllOthers(d.Set(ws[0].0, ws[0].1), ws[1..], k);
    }
  }

  /** Assigning keys the dictionary already has never changes its key order. */
  lemma {:induction false} SetAllKeys(d: Dict, ws: seq<(string, Value)>)
    requires d.Wf()
    requires forall i :: 0 <= i < |ws| ==> ws[i].0 in d.keys
    ensures d.SetAll(ws).keys == d.keys
    decreases |ws|
  {
    if ws != [] {
      SetSpec(d, ws[0].0, ws[0].1);
      SetAllKeys(d.Set(ws[0].0, ws[0].1), ws[1..]);
    }
  }

  /** The value the last pair naming `k` assigns is what `k` ends up holding. */
  lemma {:induction false} SetAllLast(d: Dict, ws: seq<(string, Value)>, i: nat)
    requires d.Wf() && i < |ws|
    requires forall j :: i < j < |ws| ==> ws[j].0 != ws[i].0
    ensures d.SetAll(ws).Get(ws[i].0) == Some(ws[i].1)
    decreases |ws|
  {
    SetSpec(d, ws[0].0, ws[0].1);
    if i == 0 {
      SetAllOthers(d.Set(ws[0].0, ws[0].1), ws[1..], ws[0].0);
    } else {
      SetAllLast(d.Set(ws[0].0, ws[0].1), ws[1..], i - 1);
    }
  }

  /** The 37 fields of an invoice record, in the order the record lists them. */
  const Fields: seq<string> := InvoiceFields + MeterFields + UsageFields + ChargeFields

  /** The fields of the invoice header: print stamp, account, number, amount, due date, address. */
  const InvoiceFields: seq<string> := [
      "printed_date",
      "printed_time",
      "customer_account",
      "invoice_number",
      "total_amount_baht",
      "due_date",
      "customer_address"
    ]

  /** The fields of the PEA code and meter row. */
  const MeterFields: seq<string> := [
      "pea_code",
      "mru",
      "meter_number",
      "meter_type",
      "meter_reading_date",
      "billing_period",
      "voltage_level",
      "multiplier"
    ]

  /** The fields of the readings, the three usage tiers and their total. */
  const UsageFields: seq<string> := [
      "recent_reading",
      "previous_reading",
      "consumption_units",
      "usage_1_150_units",
      "usage_1_150_baht_per_unit",
      "usage_1_150_total_baht",
      "usage_151_400_units",
      "usage_151_400_baht_per_unit",
      "usage_151_400_total_baht",
      "usage_over_401_units",
      "usage_over_401_baht_per_unit",
      "usage_over_401_total_baht",
      "total_usage_units"
    ]

  /** The fields of the charges, VAT and totals. */
  const ChargeFields: seq<string> := [
      "service_charge_baht",
      "total_based_amount_baht",
      "base_amount_baht",
      "ft_adjustment_baht",
      "subtotal_baht",
      "vat_percent",
      "vat_amount_baht",
      "total_baht",
      "grand_total_baht"
    ]

  /** `_initialize_data`: every field present, every value `None`. */
  function InitialData(): (r: Dict)
    ensures r.Wf()
    ensures r.keys == Fields && |r.keys| == 37
    ensures forall k :: k in Fields ==> r.Get(k) == Some(Absent)
  {
    FieldsAreDistinct();
    Dict(Fields, map k | k in Fields :: Absent)
  }

  lemma FieldsAreDistinct()
    ensures Distinct(Fields)
  {
    GroupsDistinct();
    GroupsApart();
    DistinctAppend(InvoiceFields, MeterFields);
    ApartAppend(InvoiceFields, MeterFields, UsageFields);
    DistinctAppend(InvoiceFields + MeterFields, UsageFields);
    ApartAppend(InvoiceFields, MeterFields, ChargeFields);
    ApartAppend(InvoiceFields + MeterFields, UsageFields, ChargeFields);
    DistinctAppend(InvoiceFields + MeterFields + UsageFields, ChargeFields);
  }

  lemma GroupsDistinct()
    ensures Distinct(InvoiceFields) && Distinct(MeterFields) && Distinct(UsageFields) && Distinct(ChargeFields)
  {
    InvoiceFieldsDistinct();
    MeterFieldsDistinct();
    UsageFieldsDistinct();
    ChargeFieldsDistinct();
  }

  lemma InvoiceFieldsDistinct() ensures Distinct(InvoiceFields) { }
  lemma MeterFieldsDistinct() ensures Distinct(MeterFields) { }
  lemma UsageFieldsDistinct() ensures Distinct(UsageFields) { }
  lemma ChargeFieldsDistinct() ensures Distinct(ChargeFields) { }

  lemma GroupsApart()
    ensures Apart(InvoiceFields, MeterFields) && Apart(InvoiceFields, UsageFields) && Apart(InvoiceFields, ChargeFields)
    ensures Apart(MeterFields, UsageFields) && Apart(MeterFields, ChargeFields) && Apart(UsageFields, ChargeFields)
  {
    InvoiceApart();
    MeterApart();
    UsageApart();
  }

  lemma InvoiceApart()
    ensures Apart(InvoiceFields, MeterFields) && Apart(InvoiceFields, UsageFields) && Apart(InvoiceFields, ChargeFields)
  {
  }

  lemma MeterApart()
    ensures Apart(MeterFields, UsageFields) && Apart(MeterFields, ChargeFields)
  {
  }

  lemma UsageApart()
    ensures Apart(UsageFields, ChargeFields)
  {
  }

  /** No key of `a` is a key of `b`. */
  predicate Apart(a: seq<string>, b: seq<string>) {
    forall i, j :: 0 <= i < |a| && 0 <= j < |b| ==> a[i] != b[j]
  }

  lemma DistinctAppend(a: seq<string>, b: seq<string>)
    requires Distinct(a) && Distinct(b) && Apart(a, b)
    ensures Distinct(a + b)
  {
    forall i, j | 0 <= i < j < |a + b| ensures (a + b)[i] != (a + b)[j] {
      if j < |a| {
      } else if i < |a| {
        assert (a + b)[j] == b[j - |a|];
      } else {
        assert (a + b)[i] == b[i - |a|] && (a + b)[j] == b[j - |a|];
      }
    }
  }

  lemma ApartAppend(a: seq<string>, b: seq<string>, c: seq<string>)
    requires Apart(a, c) && Apart(b, c)
    ensures Apart(a + b, c)
  {
    forall i, j | 0 <= i < |a + b| && 0 <= j < |c| ensures (a + b)[i] != c[j] {
      if i >= |a| {
        assert (a + b)[i] == b[i - |a|];
      }
    }
  }
}
