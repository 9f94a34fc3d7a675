/**
 * `save_to_csv` up to the point where rows reach the CSV writer: every
 * record's `printed_date` is parsed into a date, the records are sorted by it,
 * the columns are taken from the first sorted record with the privacy columns
 * removed, missing values are blank-filled, the privacy fields are dropped and
 * the date is rendered back into text.
 */
module CsvExport {
  import opened Wrappers
  import opened Dates
  import opened Record
  import opened StableSort

  /** The columns of the CSV header and the records handed to the writer, in order. */
  datatype Csv = Csv(columns: seq<string>, rows: seq<Dict>)

  /* ---------------------------------------------------------------------- */
  /* Parsing the printed dates                                               */

  /**
   * `data['printed_date'] = datetime.strptime(data['printed_date'], "%d-%m-%Y")`
   * on one record: a missing key raises `KeyError`, a value that is not a
   * string raises `TypeError`, a string that is not a date raises `ValueError`.
   */
  function DateField(r: Dict): (res: Result<Dict, Fault>)
  {
    match r.Get("printed_date")
    case None => Failure(KeyError)
    case Some(Text(s)) =>
      (match ParseDate(s)
       case None => Failure(ValueError)
       case Some(d) => Success(r.Set("printed_date", DateValue(d))))
    case Some(_) => Failure(TypeError)
  }

  /**
   * Which exception each kind of `printed_date` raises, and the record a date
   * that parses gives: the same record with the date value in place. On a well
   * formed record the date keeps its place among the keys, so the key order the
   * columns are taken from is the record's own, and no other field changes.
   */
  lemma DateFieldSpec(r: Dict)
    ensures DateField(r) == Failure(KeyError) <==> r.Get("printed_date") == None
    ensures DateField(r) == Failure(TypeError) <==> r.Get("printed_date").Some? && !r.Get("printed_date").value.Text?
    ensures DateField(r) == Failure(ValueError) <==>
      r.Get("printed_date").Some? && r.Get("printed_date").value.Text? && ParseDate(r.Get("printed_date").value.s).None?
    ensures DateField(r).Success? ==>
      && r.Get("printed_date").Some? && r.Get("printed_date").value.Text?
      && ParseDate(r.Get("printed_date").value.s).Some?
      && DateField(r).value == r.Set("printed_date", DateValue(ParseDate(r.Get("printed_date").value.s).value))
    ensures r.Wf() && DateField(r).Success? ==>
      && DateField(r).value.keys == r.keys
      && DateField(r).value.Get("printed_date") == Some(DateValue(ParseDate(r.Get("printed_date").value.s).value))
      && forall k :: k != "printed_date" ==> DateField(r).value.Get(k) == r.Get(k)
  {
    if r.Wf() && DateField(r).Success? {
      SetSpec(r, "printed_date", DateValue(ParseDate(r.Get("printed_date").value.s).value));
    }
  }

  /** A record whose date parses is well formed when it was, and holds a valid date. */
  lemma DateFieldDated(r: Dict)
    requires r.Wf() && DateField(r).Success?
    ensures DateField(r).value.Wf() && Dated(DateField(r).value)
  {
    var s := r.Get("printed_date").value.s;
    SetSpec(r, "printed_date", DateValue(ParseDate(s).value));
  }

  /**
   * A loop that replaces each element by `f` of it, in order, and stops at the
   * first element on which `f` raises.
   */
  function TryMap<T, E>(f: T -> Result<T, E>, xs: seq<T>): (res: Result<seq<T>, E>)
    ensures res.Success? ==> |res.value| == |xs|
  {
    if xs == [] then Success([])
    else
      match TryMap(f, xs[..|xs| - 1])
      case Failure(e) => Failure(e)
      case Success(done) =>
        match f(xs[|xs| - 1])
        case Failure(e) => Failure(e)
        case Success(y) => Success(done + [y])
  }

  /**
   * The loop gets through exactly when `f` succeeds on every element, and then
   * each element is replaced by its own image.
   */
  lemma {:induction false} TryMapSpec<T, E>(f: T -> Result<T, E>, xs: seq<T>)
    ensures TryMap(f, xs).Success? <==> forall i :: 0 <= i < |xs| ==> f(xs[i]).Success?
    ensures TryMap(f, xs).Success? ==> forall i :: 0 <= i < |xs| ==> TryMap(f, xs).value[i] == f(xs[i]).value
  {
    if xs != [] {
      var init, last := xs[..|xs| - 1], xs[|xs| - 1];
      TryMapSpec(f, init);
      assert forall i :: 0 <= i < |init| ==> xs[i] == init[i];
      if TryMap(f, xs).Success? {
        assert TryMap(f, xs).value == TryMap(f, init).value + [f(last).value];
      } else if TryMap(f, init).Success? {
        assert f(xs[|xs| - 1]).Failure?;
      } else {
        var j :| 0 <= j < |init| && f(init[j]).Failure?;
        assert f(xs[j]).Failure?;
      }
    }
  }

  /** When the loop stops, it raises what `f` raised on the first element it failed on. */
  lemma {:induction false} TryMapFirstFailure<T, E>(f: T -> Result<T, E>, xs: seq<T>, i: nat)
    requires i < |xs| && f(xs[i]).Failure?
    requires forall j :: 0 <= j < i ==> f(xs[j]).Success?
    ensures TryMap(f, xs) == Failure(f(xs[i]).error)
    decreases |xs|
  {
    var init := xs[..|xs| - 1];
    if i < |xs| - 1 {
      assert forall j :: 0 <= j <= i ==> init[j] == xs[j];
      TryMapFirstFailure(f, init, i);
    } else {
      TryMapSpec(f, init);
      assert forall j :: 0 <= j < |init| ==> init[j] == xs[j];
    }
  }

  /** One more turn of the loop extends the done prefix, or stops the whole loop with that element's error. */
  lemma TryMapStep<T, E>(f: T -> Result<T, E>, xs: seq<T>, i: nat)
    requires i < |xs| && TryMap(f, xs[..i]).Success?
    ensures f(xs[i]).Success? ==> TryMap(f, xs[..i + 1]) == Success(TryMap(f, xs[..i]).value + [f(xs[i]).value])
    ensures f(xs[i]).Failure? ==> TryMap(f, xs) == Failure(f(xs[i]).error)
  {
    assert xs[..i + 1][..i] == xs[..i];
    if f(xs[i]).Failure? {
      TryMapSpec(f, xs[..i]);
      assert forall j :: 0 <= j < i ==> xs[..i][j] == xs[j];
      TryMapFirstFailure(f, xs, i);
    }
  }

  /** The loop over the records that parses their dates. */
  function ParseDates(rs: seq<Dict>): Result<seq<Dict>, Fault> {
    TryMap(DateField, rs)
  }

  /* ---------------------------------------------------------------------- */
  /* sorted(..., key=lambda x: x['printed_date'])                             */

  /** The record holds a date in `printed_date`. */
  predicate Dated(r: Dict) {
    r.Get("printed_date").Some? && r.Get("printed_date").value.DateValue? && Valid(r.Get("printed_date").value.d)
  }

  function DateOf(r: Dict): Date
    requires Dated(r)
  {
    r.Get("printed_date").value.d
  }

  predicate AllDated(rs: seq<Dict>) {
    forall i :: 0 <= i < |rs| ==> Dated(rs[i])
  }

  /** Ascending by date. */
  predicate SortedByDate(rs: seq<Dict>)
    requires AllDated(rs)
  {
    forall i, j :: 0 <= i < j < |rs| ==> NotAfter(DateOf(rs[i]), DateOf(rs[j]))
  }

  /** Pair each record with its date, the key `sorted` compares. */
  function Decorate(rs: seq<Dict>): (s: seq<(Date, Dict)>)
    requires AllDated(rs)
  {
    seq(|rs|, i requires 0 <= i < |rs| => (DateOf(rs[i]), rs[i]))
  }

  /** Every pair holds a dated record and that record's date. */
  predicate Keyed(s: seq<(Date, Dict)>) {
    forall i :: 0 <= i < |s| ==> Dated(s[i].1) && DateOf(s[i].1) == s[i].0
  }

  lemma KeyedPerm(a: seq<(Date, Dict)>, b: seq<(Date, Dict)>)
    requires Keyed(a) && multiset(a) == multiset(b)
    ensures Keyed(b)
  {
    forall i | 0 <= i < |b| ensures Dated(b[i].1) && DateOf(b[i].1) == b[i].0 {
      assert b[i] in multiset(a);
      var k :| 0 <= k < |a| && a[k] == b[i];
    }
  }

  /** On keyed pairs, decorating the undecorated list gives the pairs back. */
  lemma DecorateUndecorate(s: seq<(Date, Dict)>)
    requires Keyed(s)
    ensures AllDated(Undecorate(s)) && Decorate(Undecorate(s)) == s
  {
  }

  /** Python's stable `sorted` with the date as key. */
  function SortByDate(rs: seq<Dict>): (s: seq<Dict>)
    requires AllDated(rs)
    ensures |s| == |rs| && AllDated(s)
  {
    var pairs := KeySort(Decorate(rs));
    KeyedPerm(Decorate(rs), pairs);
    DecorateUndecorate(pairs);
    Undecorate(pairs)
  }

  /** The sort gives the same records, ascending by date. */
  lemma SortByDateSpec(rs: seq<Dict>)
    requires AllDated(rs)
    ensures SortedByDate(SortByDate(rs))
    ensures multiset(SortByDate(rs)) == multiset(rs)
  {
    var pairs := KeySort(Decorate(rs));
    KeyedPerm(Decorate(rs), pairs);
    KeySortSorted(Decorate(rs));
    UndecoratePerm(pairs, Decorate(rs));
    assert Undecorate(Decorate(rs)) == rs;
    var s := SortByDate(rs);
    assert forall i :: 0 <= i < |s| ==> DateOf(s[i]) == pairs[i].0;
  }

  /** The records of `rs` dated `d`, in their order in `rs`. */
  function OnDate(rs: seq<Dict>, d: Date): (r: seq<Dict>)
    requires AllDated(rs)
    ensures AllDated(r)
  {
    var on := KeyOn(Decorate(rs), d);
    KeyOnKeyed(Decorate(rs), d);
    Undecorate(on)
  }

  lemma {:induction false} KeyOnKeyed(s: seq<(Date, Dict)>, d: Date)
    requires Keyed(s)
    ensures Keyed(KeyOn(s, d)) && forall i :: 0 <= i < |KeyOn(s, d)| ==> KeyOn(s, d)[i].0 == d
  {
    if s != [] {
      KeyOnKeyed(s[..|s| - 1], d);
    }
  }

  /**
   * The sort is stable: the records of any one date come out in the order they
   * went in.
   */
  lemma SortStable(rs: seq<Dict>, d: Date)
    requires AllDated(rs)
    ensures OnDate(SortByDate(rs), d) == OnDate(rs, d)
  {
    var pairs := KeySort(Decorate(rs));
    KeyedPerm(Decorate(rs), pairs);
    DecorateUndecorate(pairs);
    KeySortStable(Decorate(rs), d);
  }

  /** Two records are swapped exactly when the first one is dated later. */
  lemma SortByDatePair(x: Dict, y: Dict)
    requires Dated(x) && Dated(y)
    ensures SortByDate([x, y]) == if NotAfter(DateOf(x), DateOf(y)) then [x, y] else [y, x]
  {
    var px, py := (DateOf(x), x), (DateOf(y), y);
    assert Decorate([x, y]) == [px, py];
    KeySortPair(px, py);
    assert Undecorate([px, py]) == [x, y];
    assert Undecorate([py, px]) == [y, x];
  }

  /** A record dated August 2023 comes out before one dated September 2023, whichever order they came in. */
  lemma SortExample(aug: Dict, sep: Dict)
    requires Dated(aug) && DateOf(aug) == Date(2023, 8, 1)
    requires Dated(sep) && DateOf(sep) == Date(2023, 9, 1)
    ensures SortByDate([sep, aug]) == [aug, sep]
    ensures SortByDate([aug, sep]) == [aug, sep]
  {
    SortByDatePair(sep, aug);
    SortByDatePair(aug, sep);
  }

  /* ---------------------------------------------------------------------- */
  /* The columns                                                             */

  /** `list.remove(x)`: drop the first occurrence of `x`, or raise `ValueError` (`None`) when there is none. */
  function Remove(ks: seq<string>, x: string): (r: Option<seq<string>>)
    ensures r.None? <==> x !in ks
  {
    if ks == [] then None
    else if ks[0] == x then Some(ks[1..])
    else
      match Remove(ks[1..], x)
      case None => None
      case Some(rest) => Some([ks[0]] + rest)
  }

  /** On distinct keys, removing a key that is there leaves the others in order. */
  lemma {:induction false} RemoveSpec(ks: seq<string>, x: string)
    requires Distinct(ks) && x in ks
    ensures Remove(ks, x) == Some(Without(ks, x))
  {
    if ks[0] == x {
      WithoutAbsent(ks[1..], x);
    } else {
      assert ks[1..] == ks[1..];
      DistinctTail(ks);
      RemoveSpec(ks[1..], x);
    }
  }

  lemma {:induction false} WithoutAbsent(ks: seq<string>, x: string)
    requires Distinct([x] + ks)
    ensures Without(ks, x) == ks
  {
    if ks != [] {
      assert ks[0] == ([x] + ks)[1];
      assert ks[1..] == ([x] + ks)[1..][1..];
      DistinctTail([x] + ks);
      WithoutAbsent(ks[1..], x) by {
        forall i, j | 0 <= i < j < |[x] + ks[1..]| ensures ([x] + ks[1..])[i] != ([x] + ks[1..])[j] {
          assert ([x] + ks[1..])[j] == ([x] + ks)[j + 1];
          if i > 0 {
            assert ([x] + ks[1..])[i] == ([x] + ks)[i + 1];
          }
        }
      }
    }
  }

  lemma DistinctTail(ks: seq<string>)
    requires Distinct(ks) && ks != []
    ensures Distinct(ks[1..]) && ks[0] !in ks[1..]
  {
    forall i, j | 0 <= i < j < |ks[1..]| ensures ks[1..][i] != ks[1..][j] {
      assert ks[1..][i] == ks[i + 1] && ks[1..][j] == ks[j + 1];
    }
    forall j | 0 <= j < |ks[1..]| ensures ks[1..][j] != ks[0] {
      assert ks[1..][j] == ks[j + 1];
    }
  }

  /**
   * `csv_columns`: the keys of the first sorted record, less `customer_account`
   * and `customer_address` when their flags are off; `ValueError` when a column
   * to remove is not there.
   */
  function Columns(keys: seq<string>, showAccount: bool, showAddress: bool): Option<seq<string>> {
    var afterAccount := if showAccount then Some(keys) else Remove(keys, "customer_account");
    match afterAccount
    case None => None
    case Some(ks) => if showAddress then Some(ks) else Remove(ks, "customer_address")
  }

  /** The keys in their order with each column whose flag is off filtered out. */
  function Hidden(keys: seq<string>, showAccount: bool, showAddress: bool): seq<string> {
    var ks := if showAccount then keys else Without(keys, "customer_account");
    if showAddress then ks else Without(ks, "customer_address")
  }

  /**
   * On the distinct keys of a record, the columns are the keys in order less the
   * hidden ones, and they fail to exist exactly when a hidden column is missing.
   */
  lemma ColumnsSpec(keys: seq<string>, showAccount: bool, showAddress: bool)
    requires Distinct(keys)
    ensures Columns(keys, showAccount, showAddress).None? <==>
      (!showAccount && "customer_account" !in keys) || (!showAddress && "customer_address" !in keys)
    ensures var c := Columns(keys, showAccount, showAddress);
      c.Some? ==>
        && c.value == Hidden(keys, showAccount, showAddress)
        && (forall k :: k in c.value <==> k in keys && (showAccount || k != "customer_account") && (showAddress || k != "customer_address"))
        && Distinct(c.value)
  {
    var ks := keys;
    if !showAccount && "customer_account" in keys {
      RemoveSpec(keys, "customer_account");
      WithoutSpec(keys, "customer_account");
      ks := Without(keys, "customer_account");
    }
    if !showAddress && "customer_address" in ks {
      RemoveSpec(ks, "customer_address");
      WithoutSpec(ks, "customer_address");
    }
  }

  /* ---------------------------------------------------------------------- */
  /* Blank-filling                                                           */

  /** `if column not in data or data[column] is None: data[column] = ""` */
  function Blank(r: Dict, c: string): Dict {
    if r.Get(c) == None || r.Get(c) == Some(Absent) then r.Set(c, Text("")) else r
  }

  /** The inner loop over the columns, in order. */
  function Fill(r: Dict, cols: seq<string>): (f: Dict)
    ensures r.Wf() ==> f.Wf()
  {
    if cols == [] then r else Blank(Fill(r, cols[..|cols| - 1]), cols[|cols| - 1])
  }

  /**
   * After blank-filling, every column holds a value that is not `None`: its own
   * value when it had one, `""` otherwise; a key that is not a column is as it was.
   */
  lemma {:induction false} FillSpec(r: Dict, cols: seq<string>, k: string)
    requires r.Wf()
    ensures k in cols && (r.Get(k) == None || r.Get(k) == Some(Absent)) ==> Fill(r, cols).Get(k) == Some(Text(""))
    ensures !(k in cols && (r.Get(k) == None || r.Get(k) == Some(Absent))) ==> Fill(r, cols).Get(k) == r.Get(k)
  {
    if cols != [] {
      var init, c := cols[..|cols| - 1], cols[|cols| - 1];
      FillSpec(r, init, k);
      var f := Fill(r, init);
      assert Fill(r, cols) == Blank(f, c);
      assert k in cols <==> k in init || k == c;
      if f.Get(c) == None || f.Get(c) == Some(Absent) {
        SetSpec(f, c, Text(""));
      }
    }
  }

  /** Blank-filling keeps every key the record had, in order. */
  lemma {:induction false} FillKeys(r: Dict, cols: seq<string>)
    requires r.Wf()
    ensures forall k :: k in r.keys ==> k in Fill(r, cols).keys
  {
    if cols != [] {
      FillKeys(r, cols[..|cols| - 1]);
      SetSpec(Fill(r, cols[..|cols| - 1]), cols[|cols| - 1], Text(""));
    }
  }

  /* ---------------------------------------------------------------------- */
  /* Rendering one row                                                       */

  /** Drop the hidden fields and render the date as `DD-MM-YYYY`. */
  function Render(r: Dict, showAccount: bool, showAddress: bool): (out: Dict)
    requires r.Wf() && Dated(r)
    ensures out.Wf()
  {
    var r1 := if showAccount then r else r.Pop("customer_account");
    var r2 := if showAddress then r1 else r1.Pop("customer_address");
    var d := DateOf(r2);
    r2.Set("printed_date", Text(FormatDate(d)))
  }

  /**
   * A rendered row holds the date as text that reads back as the same date,
   * no hidden field, and every other field as it was.
   */
  lemma RenderSpec(r: Dict, showAccount: bool, showAddress: bool, k: string)
    requires r.Wf() && Dated(r)
    ensures var out := Render(r, showAccount, showAddress);
      && out.Get("printed_date").Some? && out.Get("printed_date").value.Text?
      && ParseDate(out.Get("printed_date").value.s) == Some(DateOf(r))
      && (!showAccount ==> out.Get("customer_account") == None)
      && (!showAddress ==> out.Get("customer_address") == None)
      && (k != "printed_date" && (showAccount || k != "customer_account") && (showAddress || k != "customer_address")
          ==> out.Get(k) == r.Get(k))
  {
    var r1 := if showAccount then r else r.Pop("customer_account");
    var r2 := if showAddress then r1 else r1.Pop("customer_address");
    assert r2.Get("printed_date") == r.Get("printed_date");
    SetSpec(r2, "printed_date", Text(FormatDate(DateOf(r2))));
    ParseFormat(DateOf(r));
  }

  /* ---------------------------------------------------------------------- */
  /* save_to_csv                                                             */

  predicate AllWf(rs: seq<Dict>) {
    forall i :: 0 <= i < |rs| ==> rs[i].Wf()
  }

  /** Parsed records are well formed and dated. */
  lemma DatedRecords(records: seq<Dict>)
    requires AllWf(records) && ParseDates(records).Success?
    ensures AllDated(ParseDates(records).value) && AllWf(ParseDates(records).value)
  {
    TryMapSpec(DateField, records);
    forall i | 0 <= i < |records| ensures Dated(ParseDates(records).value[i]) && ParseDates(records).value[i].Wf() {
      DateFieldDated(records[i]);
    }
  }

  /** The records with their dates parsed, sorted by date. */
  function SortedRecords(records: seq<Dict>): (s: seq<Dict>)
    requires AllWf(records) && ParseDates(records).Success?
    ensures |s| == |records| && AllDated(s) && AllWf(s)
  {
    DatedRecords(records);
    SortedWf(ParseDates(records).value);
    SortByDate(ParseDates(records).value)
  }

  /** Sorting keeps the records well formed. */
  lemma SortedWf(rs: seq<Dict>)
    requires AllDated(rs) && AllWf(rs)
    ensures AllWf(SortByDate(rs))
  {
    SortByDateSpec(rs);
    var s := SortByDate(rs);
    forall i | 0 <= i < |s| ensures s[i].Wf() {
      assert s[i] in multiset(rs);
    }
  }

  /** The blank-filled records, in order. */
  function Filled(sorted: seq<Dict>, cols: seq<string>): (f: seq<Dict>)
    requires AllDated(sorted) && AllWf(sorted)
    ensures |f| == |sorted| && AllDated(f) && AllWf(f)
  {
    FilledDated(sorted, cols);
    seq(|sorted|, i requires 0 <= i < |sorted| => Fill(sorted[i], cols))
  }

  /** Blank-filling keeps each record's date. */
  lemma FilledDated(sorted: seq<Dict>, cols: seq<string>)
    requires AllDated(sorted) && AllWf(sorted)
    ensures forall i :: 0 <= i < |sorted| ==> Dated(Fill(sorted[i], cols)) && DateOf(Fill(sorted[i], cols)) == DateOf(sorted[i])
  {
    forall i | 0 <= i < |sorted| ensures Dated(Fill(sorted[i], cols)) && DateOf(Fill(sorted[i], cols)) == DateOf(sorted[i]) {
      FillSpec(sorted[i], cols, "printed_date");
    }
  }

  /** A row the writer refuses: it holds a key that is not a column. */
  predicate Stray(row: Dict, cols: seq<string>) {
    exists k :: k in row.keys && k !in cols
  }

  /** A loop that appends `f` of each element, in order. */
  function MapAll<T, U>(f: T --> U, xs: seq<T>): (ys: seq<U>)
    requires forall i :: 0 <= i < |xs| ==> f.requires(xs[i])
    ensures |ys| == |xs|
  {
    if xs == [] then [] else MapAll(f, xs[..|xs| - 1]) + [f(xs[|xs| - 1])]
  }

  /** One more input appends one more output. */
  lemma MapAllSnoc<T, U>(f: T --> U, xs: seq<T>, k: nat)
    requires k < |xs| && forall i :: 0 <= i < |xs| ==> f.requires(xs[i])
    ensures MapAll(f, xs[..k + 1]) == MapAll(f, xs[..k]) + [f(xs[k])]
  {
    assert xs[..k + 1][..k] == xs[..k];
  }

  /** Each output is `f` of the input in its place. */
  lemma {:induction false} MapAllAt<T, U>(f: T --> U, xs: seq<T>)
    requires forall i :: 0 <= i < |xs| ==> f.requires(xs[i])
    ensures forall i :: 0 <= i < |xs| ==> MapAll(f, xs)[i] == f(xs[i])
  {
    if xs != [] {
      MapAllAt(f, xs[..|xs| - 1]);
    }
  }

  /** `Render` with the flags fixed, as a function on records. */
  function Renderer(showAccount: bool, showAddress: bool): Dict --> Dict {
    (r: Dict) requires r.Wf() && Dated(r) => Render(r, showAccount, showAddress)
  }

  lemma RendererIs(showAccount: bool, showAddress: bool, r: Dict)
    requires r.Wf() && Dated(r)
    ensures Renderer(showAccount, showAddress).requires(r)
    ensures Renderer(showAccount, showAddress)(r) == Render(r, showAccount, showAddress)
  {
  }

  lemma RendererAll(showAccount: bool, showAddress: bool, rs: seq<Dict>)
    requires AllDated(rs) && AllWf(rs)
    ensures forall i :: 0 <= i < |rs| ==> Renderer(showAccount, showAddress).requires(rs[i])
  {
  }

  /** The rows the writer receives, each rendered from its blank-filled record. */
  function Rows(filled: seq<Dict>, showAccount: bool, showAddress: bool): (rows: seq<Dict>)
    requires AllDated(filled) && AllWf(filled)
    ensures |rows| == |filled|
  {
    MapAll(Renderer(showAccount, showAddress), filled)
  }

  /** The writer's outcome: `ValueError` on a row with a key that is not a column, else the file's contents. */
  function Write(filled: seq<Dict>, cols: seq<string>, showAccount: bool, showAddress: bool): Result<Option<Csv>, Fault>
    requires AllDated(filled) && AllWf(filled)
  {
    var rows := Rows(filled, showAccount, showAddress);
    if exists i :: 0 <= i < |rows| && Stray(rows[i], cols) then Failure(ValueError)
    else Success(Some(Csv(cols, rows)))
  }

  /**
   * `save_to_csv` on a list of records: nothing at all for an empty list; the
   * exception the first bad date raises; `ValueError` when a hidden column is
   * missing from the first sorted record or a row holds a key that is not a
   * column; otherwise the columns and the rows the writer receives.
   */
  function Save(records: seq<Dict>, showAccount: bool, showAddress: bool): (res: Result<Option<Csv>, Fault>)
    requires AllWf(records)
    ensures res == Success(None) <==> records == []
  {
    if records == [] then Success(None)
    else
      match ParseDates(records)
      case Failure(e) => Failure(e)
      case Success(_) =>
        var sorted := SortedRecords(records);
        match Columns(sorted[0].keys, showAccount, showAddress)
        case None => Failure(ValueError)
        case Some(cols) => Write(Filled(sorted, cols), cols, showAccount, showAddress)
  }

  /** The loop that parses every record's date in place, in order. */
  method ParseAll(records: seq<Dict>) returns (res: Result<seq<Dict>, Fault>)
    ensures res == ParseDates(records)
  {
    var data := records;
    var i := 0;
    while i < |data|
      invariant 0 <= i <= |data| == |records|
      invariant ParseDates(records[..i]) == Success(data[..i])
      invariant data[i..] == records[i..]
    {
      assert data[i] == records[i];
      TryMapStep(DateField, records, i);
      var parsed := DateField(data[i]);
      if parsed.Failure? {
        return Failure(parsed.error);
      }
      assert data[..i] + [parsed.value] == data[i := parsed.value][..i + 1];
      data := data[i := parsed.value];
      i := i + 1;
    }
    assert records[..i] == records && data[..i] == data;
    return Success(data);
  }

  /** The two nested loops that blank-fill every record over every column. */
  method FillAll(sorted: seq<Dict>, columns: seq<string>) returns (filled: seq<Dict>)
    requires AllDated(sorted) && AllWf(sorted)
    ensures filled == Filled(sorted, columns)
  {
    filled := sorted;
    var j := 0;
    while j < |filled|
      invariant 0 <= j <= |filled| == |sorted|
      invariant forall m :: 0 <= m < j ==> filled[m] == Fill(sorted[m], columns)
      invariant forall m :: j <= m < |filled| ==> filled[m] == sorted[m]
    {
      var row := FillRow(filled[j], columns);
      filled := filled[j := row];
      j := j + 1;
    }
  }

  /** The inner loop: blank-fill one record over every column, in order. */
  method FillRow(data: Dict, columns: seq<string>) returns (row: Dict)
    ensures row == Fill(data, columns)
  {
    row := data;
    var c := 0;
    while c < |columns|
      invariant 0 <= c <= |columns|
      invariant row == Fill(data, columns[..c])
    {
      var column := columns[c];
      if row.Get(column) == None || row.Get(column) == Some(Absent) {
        row := row.Set(column, Text(""));
      }
      assert columns[..c + 1][..c] == columns[..c];
      c := c + 1;
    }
    assert columns[..c] == columns;
  }

  /** The body of the writer loop: `pop` the hidden fields, then `strftime` the date. */
  method RenderRow(data: Dict, showAccount: bool, showAddress: bool) returns (row: Dict)
    requires data.Wf() && Dated(data)
    ensures row == Render(data, showAccount, showAddress)
  {
    row := data;
    if !showAccount {
      row := row.Pop("customer_account");
    }
    if !showAddress {
      row := row.Pop("customer_address");
    }
    row := row.Set("printed_date", Text(FormatDate(DateOf(row))));
  }

  /**
   * The loop that drops the hidden fields and renders the date of each row
   * before it goes to the writer.
   */
  method WriteRows(filled: seq<Dict>, columns: seq<string>, showAccount: bool, showAddress: bool)
    returns (rows: seq<Dict>)
    requires AllDated(filled) && AllWf(filled)
    ensures rows == Rows(filled, showAccount, showAddress)
  {
    RendererAll(showAccount, showAddress, filled);
    rows := [];
    var k := 0;
    while k < |filled|
      invariant 0 <= k <= |filled|
      invariant rows == MapAll(Renderer(showAccount, showAddress), filled[..k])
    {
      var row := RenderRow(filled[k], showAccount, showAddress);
      ghost var f := Renderer(showAccount, showAddress);
      RendererIs(showAccount, showAddress, filled[k]);
      MapAllSnoc(f, filled, k);
      rows := rows + [row];
      k := k + 1;
    }
    assert filled[..k] == filled;
  }

  /** `save_to_csv` up to the writer. */
  method SaveToCsv(records: seq<Dict>, showAccount: bool, showAddress: bool) returns (res: Result<Option<Csv>, Fault>)
    requires AllWf(records)
    ensures res == Save(records, showAccount, showAddress)
  {
    if records == [] {
      return Success(None);
    }
    var parsed := ParseAll(records);
    if parsed.Failure? {
      return Failure(parsed.error);
    }
    var data := parsed.value;
    DatedRecords(records);
    var sorted := SortByDate(data);
    SortedWf(data);
    var columns := sorted[0].keys;
    if !showAccount {
      var c := Remove(columns, "customer_account");
      if c.None? {
        return Failure(ValueError);
      }
      columns := c.value;
    }
    if !showAddress {
      var c := Remove(columns, "customer_address");
      if c.None? {
        return Failure(ValueError);
      }
      columns := c.value;
    }
    assert Columns(sorted[0].keys, showAccount, showAddress) == Some(columns);
    var filled := FillAll(sorted, columns);
    var rows := WriteRows(filled, columns, showAccount, showAddress);
    if exists i :: 0 <= i < |rows| && Stray(rows[i], columns) {
      return Failure(ValueError);
    }
    return Success(Some(Csv(columns, rows)));
  }

  /* ---------------------------------------------------------------------- */
  /* What save_to_csv hands to the writer                                    */

  /** The date of a written row, read back from its text. */
  function RowDate(row: Dict): Option<Date> {
    match row.Get("printed_date")
    case Some(Text(s)) => ParseDate(s)
    case _ => None
  }

  /**
   * Each row the writer receives holds its record's date as text that reads
   * back as that date, no hidden field, only column keys, and every other
   * field as in its blank-filled record.
   */
  lemma WriteRow(filled: seq<Dict>, cols: seq<string>, showAccount: bool, showAddress: bool, i: nat, k: string)
    requires AllDated(filled) && AllWf(filled) && i < |filled|
    requires Write(filled, cols, showAccount, showAddress).Success?
    ensures Write(filled, cols, showAccount, showAddress).value.Some?
    ensures var c := Write(filled, cols, showAccount, showAddress).value.value;
      && c.columns == cols && |c.rows| == |filled|
      && RowDate(c.rows[i]) == Some(DateOf(filled[i]))
      && (!showAccount ==> c.rows[i].Get("customer_account") == None)
      && (!showAddress ==> c.rows[i].Get("customer_address") == None)
      && (k in c.rows[i].keys ==> k in cols)
      && (k != "printed_date" && (showAccount || k != "customer_account") && (showAddress || k != "customer_address")
          ==> c.rows[i].Get(k) == filled[i].Get(k))
  {
    var f := Renderer(showAccount, showAddress);
    RendererAll(showAccount, showAddress, filled);
    MapAllAt(f, filled);
    RendererIs(showAccount, showAddress, filled[i]);
    RenderSpec(filled[i], showAccount, showAddress, k);
    var rows := Rows(filled, showAccount, showAddress);
    assert !Stray(rows[i], cols);
  }

  /** A record whose date does not parse raises, and the first such record decides the exception. */
  lemma SaveDateError(records: seq<Dict>, showAccount: bool, showAddress: bool, i: nat)
    requires AllWf(records) && i < |records| && DateField(records[i]).Failure?
    requires forall j :: 0 <= j < i ==> DateField(records[j]).Success?
    ensures Save(records, showAccount, showAddress) == Failure(DateField(records[i]).error)
  {
    TryMapFirstFailure(DateField, records, i);
  }

  /** The columns come from the first sorted record: the earliest, as the sort is stable the first of its date. */
  lemma SortedFirst(records: seq<Dict>)
    requires AllWf(records) && records != [] && ParseDates(records).Success?
    ensures SortedRecords(records)[0] in ParseDates(records).value
    ensures AllDated(ParseDates(records).value)
    ensures forall j :: 0 <= j < |records| ==>
      NotAfter(DateOf(SortedRecords(records)[0]), DateOf(ParseDates(records).value[j]))
  {
    var dated := ParseDates(records).value;
    DatedRecords(records);
    SortByDateSpec(dated);
    var s := SortedRecords(records);
    assert s[0] in multiset(dated);
    forall j | 0 <= j < |records| ensures NotAfter(DateOf(s[0]), DateOf(dated[j])) {
      assert dated[j] in multiset(s);
      var k :| 0 <= k < |s| && s[k] == dated[j];
      if k == 0 {
        NotAfterTotal(DateOf(s[0]), DateOf(s[0]));
      }
    }
  }

  /**
   * With the dates parsed, the export raises `ValueError` when a hidden column
   * is missing from the first sorted record; when it succeeds, the columns are
   * that record's keys in their order, less the hidden ones.
   */
  lemma SaveColumns(records: seq<Dict>, showAccount: bool, showAddress: bool)
    requires AllWf(records) && records != [] && ParseDates(records).Success?
    ensures var first := SortedRecords(records)[0];
      ((!showAccount && "customer_account" !in first.keys) || (!showAddress && "customer_address" !in first.keys))
      ==> Save(records, showAccount, showAddress) == Failure(ValueError)
    ensures Save(records, showAccount, showAddress).Success? ==>
      var c := Save(records, showAccount, showAddress).value.value;
      && c.columns == Hidden(SortedRecords(records)[0].keys, showAccount, showAddress)
      && Distinct(c.columns)
      && forall k :: k in c.columns <==>
           k in SortedRecords(records)[0].keys && (showAccount || k != "customer_account") && (showAddress || k != "customer_address")
  {
    var first := SortedRecords(records)[0];
    ColumnsSpec(first.keys, showAccount, showAddress);
  }

  /**
   * Row `i` is sorted record `i`: its date as text that reads back as the
   * record's date, every column filled (its own value, `""` where it was missing
   * or `None`), and no other key.
   */
  lemma SaveRow(records: seq<Dict>, showAccount: bool, showAddress: bool, i: nat, k: string)
    requires AllWf(records) && i < |records| && Save(records, showAccount, showAddress).Success?
    ensures ParseDates(records).Success? && Save(records, showAccount, showAddress).value.Some?
    ensures var c := Save(records, showAccount, showAddress).value.value;
      var r := SortedRecords(records)[i];
      && |c.rows| == |records|
      && RowDate(c.rows[i]) == Some(DateOf(r))
      && (k !in c.columns ==> c.rows[i].Get(k) == None)
      && (k in c.columns ==> c.rows[i].Get(k).Some? && c.rows[i].Get(k) != Some(Absent))
      && (k in c.columns && k != "printed_date" ==>
            c.rows[i].Get(k) == if r.Get(k) == None || r.Get(k) == Some(Absent) then Some(Text("")) else r.Get(k))
  {
    var sorted := SortedRecords(records);
    var cols := Columns(sorted[0].keys, showAccount, showAddress).value;
    ColumnsSpec(sorted[0].keys, showAccount, showAddress);
    var filled := Filled(sorted, cols);
    FilledDated(sorted, cols);
    WriteRow(filled, cols, showAccount, showAddress, i, k);
    FillSpec(sorted[i], cols, k);
    var row := Save(records, showAccount, showAddress).value.value.rows[i];
    assert row.Wf() by {
      RendererAll(showAccount, showAddress, filled);
      MapAllAt(Renderer(showAccount, showAddress), filled);
    }
    if k == "printed_date" && k in cols {
      assert row.Get(k).Some? && row.Get(k).value.Text?;
    }
  }

  /** The rows reach the writer ascending by their date. */
  lemma SaveAscending(records: seq<Dict>, showAccount: bool, showAddress: bool)
    requires AllWf(records) && records != [] && Save(records, showAccount, showAddress).Success?
    ensures Save(records, showAccount, showAddress).value.Some?
    ensures var rows := Save(records, showAccount, showAddress).value.value.rows;
      forall i, j :: 0 <= i < j < |rows| ==>
        RowDate(rows[i]).Some? && RowDate(rows[j]).Some? && NotAfter(RowDate(rows[i]).value, RowDate(rows[j]).value)
  {
    SaveRow(records, showAccount, showAddress, 0, "printed_date");
    var rows := Save(records, showAccount, showAddress).value.value.rows;
    DatedRecords(records);
    SortByDateSpec(ParseDates(records).value);
    var sorted := SortedRecords(records);
    assert SortedByDate(sorted);
    forall i, j | 0 <= i < j < |rows|
      ensures RowDate(rows[i]).Some? && RowDate(rows[j]).Some? && NotAfter(RowDate(rows[i]).value, RowDate(rows[j]).value)
    {
      SaveRow(records, showAccount, showAddress, i, "printed_date");
      SaveRow(records, showAccount, showAddress, j, "printed_date");
    }
  }
}
