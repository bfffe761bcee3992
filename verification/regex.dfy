/**
 * The fragment of JavaScript regular expressions the gateway uses: a sequence of
 * literal characters and greedy `+` repetitions of a character class, with one
 * capturing group spanning a contiguous range of atoms. Matching follows the
 * ECMAScript backtracking order: a `+` first takes the longest run it can and
 * gives characters back one at a time; `String.prototype.match` without the `g`
 * flag tries start positions 0, 1, ..., |s| and reports the first that matches.
 */
module Regex {
  import opened Wrappers
  import opened Text

  datatype Atom = Lit(c: char) | Plus(cls: CharClass)

  /** `atoms[groupStart..groupEnd]` is the capturing group `( ... )`. */
  datatype Pattern = Pattern(atoms: seq<Atom>, groupStart: nat, groupEnd: nat)

  predicate WellFormed(p: Pattern) {
    p.groupStart <= p.groupEnd <= |p.atoms|
  }

  /** The atoms of a literal string. */
  function Lits(w: string): (r: seq<Atom>)
    ensures |r| == |w|
    ensures forall i :: 0 <= i < |w| ==> r[i] == Lit(w[i])
  {
    if w == [] then [] else [Lit(w[0])] + Lits(w[1..])
  }

  /**
   * Positions of a match of `n` atoms starting at `pos`: `b[t]` is where atom `t`
   * begins and `b[n]` is where the match ends.
   */
  predicate Boundaries(b: seq<nat>, n: nat, pos: nat, len: nat) {
    && |b| == n + 1
    && b[0] == pos
    && (forall j, k :: 0 <= j <= k < |b| ==> b[j] <= b[k])
    && b[n] <= len
  }

  /** Backtracking match of `atoms` anchored at `pos`; the boundaries of the first success. */
  function MatchFrom(atoms: seq<Atom>, s: string, pos: nat): (r: Option<seq<nat>>)
    requires pos <= |s|
    ensures r.Some? ==> Boundaries(r.value, |atoms|, pos, |s|)
    decreases |atoms|, |s| - pos + 1
  {
    if atoms == [] then Some([pos])
    else
      match atoms[0]
      case Lit(c) =>
        if pos < |s| && s[pos] == c then
          match MatchFrom(atoms[1..], s, pos + 1)
          case Some(b) => Some([pos] + b)
          case None => None
        else None
      case Plus(cls) => TryRun(atoms[1..], s, pos, RunEnd(s, pos, cls) - pos)
  }

  /**
   * A `+` that has consumed `k` characters from `pos`: try the rest of the pattern
   * after them, and on failure give one character back, down to one character.
   */
  function TryRun(rest: seq<Atom>, s: string, pos: nat, k: nat): (r: Option<seq<nat>>)
    requires pos + k <= |s|
    ensures r.Some? ==> Boundaries(r.value, |rest| + 1, pos, |s|)
    decreases |rest| + 1, k
  {
    if k == 0 then None
    else
      match MatchFrom(rest, s, pos + k)
      case Some(b) => Some([pos] + b)
      case None => TryRun(rest, s, pos, k - 1)
  }

  predicate MatchesAt(p: Pattern, s: string, j: nat)
    requires j <= |s|
  {
    MatchFrom(p.atoms, s, j).Some?
  }

  /** The leftmost start position at or after `i` where `p` matches. */
  function Search(p: Pattern, s: string, i: nat): (r: Option<nat>)
    requires i <= |s|
    ensures r.None? <==> forall j :: i <= j <= |s| ==> !MatchesAt(p, s, j)
    ensures r.Some? ==> i <= r.value <= |s| && MatchesAt(p, s, r.value)
    ensures r.Some? ==> forall j :: i <= j < r.value ==> !MatchesAt(p, s, j)
    decreases |s| - i
  {
    if MatchesAt(p, s, i) then Some(i)
    else if i == |s| then None
    else Search(p, s, i + 1)
  }

  /** The text the capturing group took in the match that starts at `j`. */
  function Group(p: Pattern, s: string, j: nat): string
    requires WellFormed(p) && j <= |s| && MatchesAt(p, s, j)
  {
    var b := MatchFrom(p.atoms, s, j).value;
    s[b[p.groupStart]..b[p.groupEnd]]
  }

  /**
   * `s.match(p)?.[1]`: the group of the leftmost match, or `None` when `p`
   * matches nowhere in `s`.
   */
  function Exec(p: Pattern, s: string): (r: Option<string>)
    requires WellFormed(p)
    ensures r.None? <==> forall j :: 0 <= j <= |s| ==> !MatchesAt(p, s, j)
    ensures r.Some? ==> exists j :: 0 <= j <= |s| && MatchesAt(p, s, j) && r.value == Group(p, s, j)
                                   && forall k :: 0 <= k < j ==> !MatchesAt(p, s, k)
  {
    match Search(p, s, 0)
    case None => None
    case Some(j) => Some(Group(p, s, j))
  }

  /** The ascending positions `pos, pos + 1, ..., pos + n - 1`. */
  function Range(pos: nat, n: nat): (r: seq<nat>)
    ensures |r| == n
    ensures forall i :: 0 <= i < n ==> r[i] == pos + i
    decreases n
  {
    if n == 0 then [] else [pos] + Range(pos + 1, n - 1)
  }

  function PrependRange(pos: nat, n: nat, o: Option<seq<nat>>): Option<seq<nat>> {
    match o
    case None => None
    case Some(b) => Some(Range(pos, n) + b)
  }

  /** Comparing a literal with the text is comparing the first character, then the rest. */
  lemma SliceStep(s: string, pos: nat, w: string)
    requires w != [] && pos + |w| <= |s|
    ensures (s[pos..pos + |w|] == w) <==> (s[pos] == w[0] && s[pos + 1..pos + |w|] == w[1..])
  {
    assert s[pos..pos + |w|] == [s[pos]] + s[pos + 1..pos + |w|];
    assert w == [w[0]] + w[1..];
  }

  /** One literal atom: the match either fails or steps over one character. */
  lemma MatchLit(c: char, rest: seq<Atom>, s: string, pos: nat)
    requires pos <= |s|
    ensures MatchFrom([Lit(c)] + rest, s, pos)
         == if pos < |s| && s[pos] == c then PrependRange(pos, 1, MatchFrom(rest, s, pos + 1)) else None
  {
    var atoms := [Lit(c)] + rest;
    assert atoms[1..] == rest;
    if pos < |s| && s[pos] == c {
      match MatchFrom(rest, s, pos + 1)
      case None =>
      case Some(b) => assert Range(pos, 1) == [pos];
    }
  }

  /** A literal prefix either matches character for character or fails the whole match. */
  lemma {:induction false} MatchLits(w: string, rest: seq<Atom>, s: string, pos: nat)
    requires pos <= |s|
    ensures MatchFrom(Lits(w) + rest, s, pos)
         == if pos + |w| <= |s| && s[pos..pos + |w|] == w
            then PrependRange(pos, |w|, MatchFrom(rest, s, pos + |w|))
            else None
    decreases |w|
  {
    if w == [] {
      MatchLitsNil(rest, s, pos);
    } else {
      if pos < |s| {
        MatchLits(w[1..], rest, s, pos + 1);
      }
      MatchLitsCons(w, rest, s, pos);
    }
  }

  lemma MatchLitsNil(rest: seq<Atom>, s: string, pos: nat)
    requires pos <= |s|
    ensures MatchFrom(Lits([]) + rest, s, pos) == PrependRange(pos, 0, MatchFrom(rest, s, pos))
  {
    assert Lits([]) + rest == rest;
    PrependNoPositions(pos, MatchFrom(rest, s, pos));
  }

  /** The step of `MatchLits`: the first literal, then the rest by hypothesis. */
  lemma MatchLitsCons(w: string, rest: seq<Atom>, s: string, pos: nat)
    requires w != [] && pos <= |s|
    requires pos < |s| ==>
               MatchFrom(Lits(w[1..]) + rest, s, pos + 1)
               == if pos + |w| <= |s| && s[pos + 1..pos + |w|] == w[1..]
                  then PrependRange(pos + 1, |w| - 1, MatchFrom(rest, s, pos + |w|))
                  else None
    ensures MatchFrom(Lits(w) + rest, s, pos)
         == if pos + |w| <= |s| && s[pos..pos + |w|] == w
            then PrependRange(pos, |w|, MatchFrom(rest, s, pos + |w|))
            else None
  {
    var inner := Lits(w[1..]) + rest;
    assert Lits(w) + rest == [Lit(w[0])] + inner;
    MatchLit(w[0], inner, s, pos);
    if pos + |w| <= |s| {
      SliceStep(s, pos, w);
      if s[pos] == w[0] {
        PrependOnePosition(pos, |w|, MatchFrom(rest, s, pos + |w|));
      }
    }
  }

  lemma PrependNoPositions(pos: nat, o: Option<seq<nat>>)
    ensures PrependRange(pos, 0, o) == o
  {
    match o
    case None =>
    case Some(b) => assert Range(pos, 0) + b == b;
  }

  /** Prepending `n` positions is prepending the first, then the other `n - 1`. */
  lemma PrependOnePosition(pos: nat, n: nat, o: Option<seq<nat>>)
    requires n >= 1
    ensures PrependRange(pos, 1, PrependRange(pos + 1, n - 1, o)) == PrependRange(pos, n, o)
  {
    match o
    case None =>
    case Some(b) =>
      assert Range(pos, 1) + (Range(pos + 1, n - 1) + b) == Range(pos, n) + b;
  }

  /** A final `+` takes the whole maximal run, and fails only on an empty one. */
  lemma PlusLast(cls: CharClass, s: string, pos: nat)
    requires pos <= |s|
    ensures MatchFrom([Plus(cls)], s, pos)
         == if pos < |s| && InClass(cls, s[pos]) then Some([pos, RunEnd(s, pos, cls)]) else None
  {
    var e := RunEnd(s, pos, cls);
    assert [Plus(cls)][1..] == [];
    if e > pos {
      assert MatchFrom([], s, e) == Some([e]);
      assert [pos] + [e] == [pos, e];
    }
  }

  /** After a literal prefix, the group's text is read off the boundaries of the rest of the match. */
  lemma GroupAfterLits(p: Pattern, w: string, rest: seq<Atom>, s: string, j: nat)
    requires WellFormed(p) && p.atoms == Lits(w) + rest && |w| <= p.groupStart
    requires j + |w| <= |s| && s[j..j + |w|] == w && MatchFrom(rest, s, j + |w|).Some?
    ensures MatchesAt(p, s, j)
    ensures var b := MatchFrom(rest, s, j + |w|).value;
            Group(p, s, j) == s[b[p.groupStart - |w|]..b[p.groupEnd - |w|]]
  {
    MatchLits(w, rest, s, j);
    var b := MatchFrom(rest, s, j + |w|).value;
    var full := Range(j, |w|) + b;
    assert MatchFrom(p.atoms, s, j) == Some(full);
    assert full[p.groupStart] == b[p.groupStart - |w|];
    assert full[p.groupEnd] == b[p.groupEnd - |w|];
  }
}
