/**
 * The fragment of Python's `re` that the extractor's patterns use: a pattern is a
 * concatenation of atoms (a literal, or a character class repeated between a
 * minimum and a maximum number of times, greedily or lazily), and each capture
 * group spans a run of consecutive atoms. `Match` tries the ends of each atom in
 * the order Python's backtracking engine tries them (greedy: longest first; lazy:
 * shortest first) and `Search` returns the groups of the leftmost match, as
 * `re.search(...).groups()` does.
 *
 * `IsPath` says declaratively what a match is; the lemmas prove that `Match`
 * finds a match exactly when one exists and that `Find` starts at the leftmost
 * position where one exists.
 */
module Regex {
  import opened Wrappers
  import opened Text

  /** The character classes the patterns use. */
  datatype Class =
    | Digit         // \d
    | Space         // \s
    | NonSpace      // \S
    | NotNewline    // .
    | DigitOrComma  // [\d,]

  predicate InClass(c: char, k: Class) {
    match k
    case Digit => IsDigit(c)
    case Space => IsSpace(c)
    case NonSpace => !IsSpace(c)
    case NotNewline => c != '\n'
    case DigitOrComma => IsDigit(c) || c == ','
  }

  datatype Limit = Unbounded | AtMost(n: nat)

  /** A literal, or a character class repeated from `min` up to `max` times. */
  datatype Atom =
    | Lit(s: string)
    | Rep(cls: Class, min: nat, max: Limit, lazy: bool)

  /** `k*` */
  function Star(k: Class): Atom { Rep(k, 0, Unbounded, false) }
  /** `k+` */
  function Plus(k: Class): Atom { Rep(k, 1, Unbounded, false) }
  /** `k+?` */
  function LazyPlus(k: Class): Atom { Rep(k, 1, Unbounded, true) }
  /** `k{n}` */
  function Exactly(k: Class, n: nat): Atom { Rep(k, n, AtMost(n), false) }

  /** The strings an atom matches. */
  predicate InLang(a: Atom, w: string) {
    match a
    case Lit(s) => w == s
    case Rep(k, lo, hi, _) =>
      && lo <= |w|
      && (hi.AtMost? ==> |w| <= hi.n)
      && forall i :: 0 <= i < |w| ==> InClass(w[i], k)
  }

  /** The end of the longest run of class `k` starting at `p`. */
  function RunEnd(text: string, p: nat, k: Class): (e: nat)
    requires p <= |text|
    ensures p <= e <= |text|
    ensures forall i :: p <= i < e ==> InClass(text[i], k)
    ensures e < |text| ==> !InClass(text[e], k)
    decreases |text| - p
  {
    if p == |text| || !InClass(text[p], k) then p else RunEnd(text, p + 1, k)
  }

  /** `hi, hi - 1, ..., lo` */
  function Down(hi: nat, lo: nat): (r: seq<nat>)
    requires lo <= hi
    ensures forall x :: x in r <==> lo <= x <= hi
    ensures forall i :: 0 <= i < |r| ==> lo <= r[i] <= hi
    ensures |r| > 0 && r[0] == hi
    decreases hi - lo
  {
    if hi == lo then [lo] else [hi] + Down(hi - 1, lo)
  }

  /** `lo, lo + 1, ..., hi` */
  function Up(lo: nat, hi: nat): (r: seq<nat>)
    requires lo <= hi
    ensures forall x :: x in r <==> lo <= x <= hi
    ensures forall i :: 0 <= i < |r| ==> lo <= r[i] <= hi
    ensures |r| > 0 && r[0] == lo
    decreases hi - lo
  {
    if hi == lo then [hi] else [lo] + Up(lo + 1, hi)
  }

  /** The positions at which atom `a`, started at `p`, may end, in the order Python tries them. */
  function Candidates(text: string, p: nat, a: Atom): (r: seq<nat>)
    requires p <= |text|
    ensures forall e :: e in r ==> p <= e <= |text|
    ensures forall i :: 0 <= i < |r| ==> p <= r[i] <= |text|
  {
    match a
    case Lit(s) => if StartsWith(text[p..], s) then [p + |s|] else []
    case Rep(k, lo, hi, lazy) =>
      var run := RunEnd(text, p, k);
      var top := if hi.AtMost? && p + hi.n < run then p + hi.n else run;
      if top < p + lo then []
      else if lazy then Up(p + lo, top)
      else Down(top, p + lo)
  }

  /** The candidates are exactly the ends that make the atom match. */
  lemma CandidatesExact(text: string, p: nat, a: Atom, e: nat)
    requires p <= e <= |text|
    ensures e in Candidates(text, p, a) <==> InLang(a, text[p..e])
  {
    match a
    case Lit(s) =>
      if InLang(a, text[p..e]) {
        assert text[p..][..|s|] == text[p..e];
      }
      if e in Candidates(text, p, a) {
        assert text[p..][..|s|] == text[p..e];
      }
    case Rep(k, lo, hi, lazy) =>
      var run := RunEnd(text, p, k);
      var w := text[p..e];
      if e > run {
        assert w[run - p] == text[run];
      }
      if e <= run {
        forall i | 0 <= i < |w| ensures InClass(w[i], k) {
          assert w[i] == text[p + i];
        }
      }
  }

  lemma {:induction false} DownDescending(hi: nat, lo: nat)
    requires lo <= hi
    ensures forall i, j :: 0 <= i < j < |Down(hi, lo)| ==> Down(hi, lo)[i] > Down(hi, lo)[j]
    decreases hi - lo
  {
    if hi != lo {
      DownDescending(hi - 1, lo);
      var r, t := Down(hi, lo), Down(hi - 1, lo);
      forall i, j | 0 <= i < j < |r| ensures r[i] > r[j] {
        assert r[j] == t[j - 1];
        if i > 0 {
          assert r[i] == t[i - 1];
        }
      }
    }
  }

  lemma {:induction false} UpAscending(lo: nat, hi: nat)
    requires lo <= hi
    ensures forall i, j :: 0 <= i < j < |Up(lo, hi)| ==> Up(lo, hi)[i] < Up(lo, hi)[j]
    decreases hi - lo
  {
    if hi != lo {
      UpAscending(lo + 1, hi);
      var r, t := Up(lo, hi), Up(lo + 1, hi);
      forall i, j | 0 <= i < j < |r| ensures r[i] < r[j] {
        assert r[j] == t[j - 1];
        if i > 0 {
          assert r[i] == t[i - 1];
        }
      }
    }
  }

  /**
   * The order in which the ends are tried: a greedy repetition tries the longest
   * run first and then ever shorter ones, a lazy one the shortest first and then
   * ever longer ones; a literal has at most one end.
   */
  lemma CandidatesOrder(text: string, p: nat, a: Atom)
    requires p <= |text|
    ensures var r := Candidates(text, p, a);
      a.Rep? && !a.lazy ==> forall i, j :: 0 <= i < j < |r| ==> r[i] > r[j]
    ensures var r := Candidates(text, p, a);
      a.Rep? && a.lazy ==> forall i, j :: 0 <= i < j < |r| ==> r[i] < r[j]
    ensures a.Lit? ==> |Candidates(text, p, a)| <= 1
  {
    match a
    case Lit(_) =>
    case Rep(k, lo, hi, lazy) =>
      var run := RunEnd(text, p, k);
      var top := if hi.AtMost? && p + hi.n < run then p + hi.n else run;
      if top >= p + lo {
        if lazy {
          UpAscending(p + lo, top);
        } else {
          DownDescending(top, p + lo);
        }
      }
  }

  /**
   * Match `atoms` from position `p`; on success, the position where each atom
   * ends. The first atom's candidates are tried in order and the first that lets
   * the rest match wins, which is how a backtracking engine explores them.
   */
  function Match(text: string, p: nat, atoms: seq<Atom>): Option<seq<nat>>
    requires p <= |text|
    decreases |atoms|, 1, 0
  {
    if atoms == [] then Some([])
    else TryEach(text, Candidates(text, p, atoms[0]), atoms[1..])
  }

  function TryEach(text: string, ends: seq<nat>, rest: seq<Atom>): Option<seq<nat>>
    requires forall i :: 0 <= i < |ends| ==> ends[i] <= |text|
    decreases |rest| + 1, 0, |ends|
  {
    if ends == [] then None
    else
      match Match(text, ends[0], rest)
      case Some(path) => Some([ends[0]] + path)
      case None => TryEach(text, ends[1..], rest)
  }

  /** `path` lists where each atom ends, the first starting at `p`, each piece in its atom's language. */
  predicate IsPath(text: string, p: nat, atoms: seq<Atom>, path: seq<nat>)
    decreases |atoms|
  {
    && |path| == |atoms|
    && p <= |text|
    && (atoms != [] ==>
          && p <= path[0] <= |text|
          && InLang(atoms[0], text[p..path[0]])
          && IsPath(text, path[0], atoms[1..], path[1..]))
  }

  /** A successful match is a real match. */
  lemma {:induction false} MatchSound(text: string, p: nat, atoms: seq<Atom>)
    requires p <= |text|
    ensures Match(text, p, atoms).Some? ==> IsPath(text, p, atoms, Match(text, p, atoms).value)
    decreases |atoms|, 1, 0
  {
    if atoms != [] {
      var cands := Candidates(text, p, atoms[0]);
      TryEachSound(text, cands, atoms[1..]);
      var r := TryEach(text, cands, atoms[1..]);
      if r.Some? {
        CandidatesExact(text, p, atoms[0], r.value[0]);
      }
    }
  }

  lemma {:induction false} TryEachSound(text: string, ends: seq<nat>, rest: seq<Atom>)
    requires forall i :: 0 <= i < |ends| ==> ends[i] <= |text|
    ensures var r := TryEach(text, ends, rest);
      r.Some? ==>
        && |r.value| > 0 && r.value[0] in ends
        && Match(text, r.value[0], rest) == Some(r.value[1..])
        && IsPath(text, r.value[0], rest, r.value[1..])
    decreases |rest| + 1, 0, |ends|
  {
    if ends != [] {
      MatchSound(text, ends[0], rest);
      TryEachSound(text, ends[1..], rest);
    }
  }

  lemma {:induction false} TryEachFinds(text: string, ends: seq<nat>, rest: seq<Atom>, e: nat)
    requires forall i :: 0 <= i < |ends| ==> ends[i] <= |text|
    requires e in ends && e <= |text| && Match(text, e, rest).Some?
    ensures TryEach(text, ends, rest).Some?
    decreases |ends|
  {
    if ends[0] != e && Match(text, ends[0], rest).None? {
      TryEachFinds(text, ends[1..], rest, e);
    }
  }

  /** Whenever a match exists at `p`, `Match` finds one: backtracking misses nothing. */
  lemma {:induction false} MatchComplete(text: string, p: nat, atoms: seq<Atom>, path: seq<nat>)
    ensures IsPath(text, p, atoms, path) ==> Match(text, p, atoms).Some?
    decreases |atoms|
  {
    if IsPath(text, p, atoms, path) && atoms != [] {
      CandidatesExact(text, p, atoms[0], path[0]);
      MatchComplete(text, path[0], atoms[1..], path[1..]);
      TryEachFinds(text, Candidates(text, p, atoms[0]), atoms[1..], path[0]);
    }
  }

  /* ---------------------------------------------------------------------- */
  /* Search                                                                  */

  /** A match found at `start`, with the end position of each atom. */
  datatype Hit = Hit(start: nat, path: seq<nat>)

  function FindFrom(text: string, atoms: seq<Atom>, p: nat): Option<Hit>
    requires p <= |text|
    decreases |text| - p
  {
    match Match(text, p, atoms)
    case Some(path) => Some(Hit(p, path))
    case None => if p == |text| then None else FindFrom(text, atoms, p + 1)
  }

  /** Try every start position from the left, as `re.search` does. */
  function Find(text: string, atoms: seq<Atom>): Option<Hit> {
    FindFrom(text, atoms, 0)
  }

  /** Where a search result starts, or one past the end of the text when there is none. */
  function StartOf(text: string, r: Option<Hit>): nat {
    if r.Some? then r.value.start else |text| + 1
  }

  lemma {:induction false} FindFromSpec(text: string, atoms: seq<Atom>, p: nat)
    requires p <= |text|
    ensures var r := FindFrom(text, atoms, p);
      r.Some? ==>
        && p <= r.value.start <= |text|
        && Match(text, r.value.start, atoms) == Some(r.value.path)
        && IsPath(text, r.value.start, atoms, r.value.path)
    ensures forall q: nat, path: seq<nat> ::
      p <= q < StartOf(text, FindFrom(text, atoms, p)) ==> !IsPath(text, q, atoms, path)
    decreases |text| - p
  {
    MatchSound(text, p, atoms);
    if Match(text, p, atoms).None? {
      forall path: seq<nat> ensures !IsPath(text, p, atoms, path) {
        MatchComplete(text, p, atoms, path);
      }
      if p < |text| {
        FindFromSpec(text, atoms, p + 1);
      }
    }
  }

  /**
   * `Find` returns a match at the leftmost position where there is one; there is
   * none before it, and none at all when `Find` returns `None`.
   */
  lemma FindSpec(text: string, atoms: seq<Atom>)
    ensures var r := Find(text, atoms);
      r.Some? ==>
        && r.value.start <= |text|
        && Match(text, r.value.start, atoms) == Some(r.value.path)
        && IsPath(text, r.value.start, atoms, r.value.path)
    ensures forall q: nat, path: seq<nat> :: q < StartOf(text, Find(text, atoms)) ==> !IsPath(text, q, atoms, path)
  {
    FindFromSpec(text, atoms, 0);
  }

  /** What `Find` returns is a match at the position it names. */
  lemma FindSound(text: string, atoms: seq<Atom>)
    ensures var r := Find(text, atoms);
      r.Some? ==> r.value.start <= |text| && IsPath(text, r.value.start, atoms, r.value.path)
  {
    FindSpec(text, atoms);
  }

  /** A capture group: the text matched by atoms `first` up to, not including, `last`. */
  datatype Group = Group(first: nat, last: nat)

  datatype Pattern = Pattern(atoms: seq<Atom>, groups: seq<Group>) {
    predicate Wf() {
      forall g :: g in groups ==> g.first < g.last <= |atoms|
    }
  }

  /** Where atom `i` starts: the match start, or where atom `i - 1` ended. */
  function Pos(start: nat, path: seq<nat>, i: nat): nat
    requires i <= |path|
  {
    if i == 0 then start else path[i - 1]
  }

  lemma {:induction false} PathMonotone(text: string, p: nat, atoms: seq<Atom>, path: seq<nat>, i: nat, j: nat)
    requires IsPath(text, p, atoms, path) && i <= j <= |atoms|
    ensures Pos(p, path, i) <= Pos(p, path, j) <= |text|
    decreases |atoms|
  {
    if j > 0 {
      if i == 0 {
        PathMonotone(text, path[0], atoms[1..], path[1..], 0, j - 1);
      } else {
        PathMonotone(text, path[0], atoms[1..], path[1..], i - 1, j - 1);
      }
    }
  }

  /** The piece atom `i` matched is in that atom's language. */
  lemma {:induction false} PathPiece(text: string, p: nat, atoms: seq<Atom>, path: seq<nat>, i: nat)
    requires IsPath(text, p, atoms, path) && i < |atoms|
    ensures Pos(p, path, i) <= Pos(p, path, i + 1) <= |text|
    ensures InLang(atoms[i], text[Pos(p, path, i)..Pos(p, path, i + 1)])
    decreases i
  {
    if i > 0 {
      PathPiece(text, path[0], atoms[1..], path[1..], i - 1);
    }
  }

  function GroupText(text: string, h: Hit, atoms: seq<Atom>, g: Group): string
    requires IsPath(text, h.start, atoms, h.path) && g.first < g.last <= |atoms|
  {
    PathMonotone(text, h.start, atoms, h.path, g.first, g.last);
    text[Pos(h.start, h.path, g.first)..Pos(h.start, h.path, g.last)]
  }

  /** Python's `re.search(pattern, text)`, giving `match.groups()` of the leftmost match. */
  function Search(text: string, pat: Pattern): (r: Option<seq<string>>)
    requires pat.Wf()
    ensures r.Some? ==> |r.value| == |pat.groups|
  {
    match Find(text, pat.atoms)
    case None => None
    case Some(h) =>
      FindSound(text, pat.atoms);
      Some(seq(|pat.groups|, g requires 0 <= g < |pat.groups| =>
                 GroupText(text, h, pat.atoms, pat.groups[g])))
  }

  /** `re.search` finds something exactly when the pattern matches somewhere in the text. */
  lemma SearchExists(text: string, pat: Pattern)
    requires pat.Wf()
    ensures Search(text, pat).Some? ==> exists q: nat, path: seq<nat> :: IsPath(text, q, pat.atoms, path)
    ensures Search(text, pat).None? ==> forall q: nat, path: seq<nat> :: !IsPath(text, q, pat.atoms, path)
  {
    FindSpec(text, pat.atoms);
    if Find(text, pat.atoms).Some? {
      var h := Find(text, pat.atoms).value;
      assert Search(text, pat).Some?;
      assert IsPath(text, h.start, pat.atoms, h.path);
    } else {
      assert Search(text, pat).None?;
      forall q: nat, path: seq<nat> ensures !IsPath(text, q, pat.atoms, path) {
        assert q < StartOf(text, Find(text, pat.atoms)) || q > |text|;
      }
    }
  }

  /** A group made of a single atom captures a string of that atom's language. */
  lemma SearchGroupLang(text: string, pat: Pattern, g: nat)
    requires pat.Wf() && Search(text, pat).Some?
    requires g < |pat.groups| && pat.groups[g].last == pat.groups[g].first + 1
    ensures InLang(pat.atoms[pat.groups[g].first], Search(text, pat).value[g])
  {
    FindSpec(text, pat.atoms);
    var h := Find(text, pat.atoms).value;
    assert pat.groups[g] in pat.groups;
    PathPiece(text, h.start, pat.atoms, h.path, pat.groups[g].first);
  }

  /** A match of `a + b` begins with a match of `a`. */
  lemma {:induction false} PathPrefix(text: string, p: nat, a: seq<Atom>, b: seq<Atom>, path: seq<nat>)
    requires IsPath(text, p, a + b, path)
    ensures IsPath(text, p, a, path[..|a|])
    decreases |a|
  {
    if a != [] {
      assert (a + b)[1..] == a[1..] + b;
      PathPrefix(text, path[0], a[1..], b, path[1..]);
      assert path[..|a|][1..] == path[1..][..|a| - 1];
    }
  }

  /** Whenever a pattern matches somewhere, every pattern formed by a prefix of its atoms does too. */
  lemma SearchPrefix(text: string, a: seq<Atom>, b: seq<Atom>, ga: seq<Group>, gab: seq<Group>)
    requires Pattern(a, ga).Wf() && Pattern(a + b, gab).Wf()
    requires Search(text, Pattern(a + b, gab)).Some?
    ensures Search(text, Pattern(a, ga)).Some?
  {
    FindSpec(text, a + b);
    assert Find(text, a + b).Some?;
    var h := Find(text, a + b).value;
    PathPrefix(text, h.start, a, b, h.path);
    SearchExists(text, Pattern(a, ga));
    assert IsPath(text, h.start, a, h.path[..|a|]);
  }

  /**
   * A greedy, unbounded last atom takes the longest run it can: the match ends
   * at the end of the text or before a character outside the atom's class.
   */
  lemma {:induction false} MatchLastGreedy(text: string, p: nat, atoms: seq<Atom>)
    requires p <= |text| && |atoms| > 0
    requires atoms[|atoms| - 1].Rep? && atoms[|atoms| - 1].max == Unbounded && !atoms[|atoms| - 1].lazy
    requires Match(text, p, atoms).Some?
    ensures var path := Match(text, p, atoms).value;
      |path| == |atoms| &&
      var e := path[|path| - 1];
      e <= |text| && (e == |text| || !InClass(text[e], atoms[|atoms| - 1].cls))
    decreases |atoms|
  {
    var cands := Candidates(text, p, atoms[0]);
    TryEachSound(text, cands, atoms[1..]);
    var path := TryEach(text, cands, atoms[1..]).value;
    MatchSound(text, p, atoms);
    if |atoms| == 1 {
      assert cands[0] == RunEnd(text, p, atoms[0].cls);
      assert Match(text, cands[0], atoms[1..]).Some?;
    } else {
      MatchLastGreedy(text, path[0], atoms[1..]);
      assert path[|path| - 1] == path[1..][|path| - 2];
    }
  }

  /**
   * When the last atom is greedy and unbounded and ends the last group, that
   * group's capture stands in the text followed by the end or by a character
   * outside the atom's class: the run is maximal.
   */
  lemma SearchLastGreedy(text: string, pat: Pattern)
    requires pat.Wf() && |pat.groups| > 0 && |pat.atoms| > 0
    requires var a := pat.atoms[|pat.atoms| - 1]; a.Rep? && a.max == Unbounded && !a.lazy
    requires pat.groups[|pat.groups| - 1].last == |pat.atoms|
    requires Search(text, pat).Some?
    ensures var w := Search(text, pat).value[|pat.groups| - 1];
      exists i: nat :: OccursAt(w, text, i) &&
        (i + |w| == |text| || !InClass(text[i + |w|], pat.atoms[|pat.atoms| - 1].cls))
  {
    FindSpec(text, pat.atoms);
    var h := Find(text, pat.atoms).value;
    var g := pat.groups[|pat.groups| - 1];
    assert g in pat.groups;
    MatchLastGreedy(text, h.start, pat.atoms);
    PathMonotone(text, h.start, pat.atoms, h.path, g.first, g.last);
    var lo := Pos(h.start, h.path, g.first);
    var w := Search(text, pat).value[|pat.groups| - 1];
    assert w == text[lo..Pos(h.start, h.path, g.last)];
    assert OccursAt(w, text, lo);
  }
}
