/**
 * Storage-key derivation: `imageUrl.split('/').at(-1) + '.png'`, the text after
 * the last `/` of the export URL with a fixed `.png` extension.
 */
module Keys {
  import opened Text

  const Slash: char := '/'
  const PngSuffix: string := ".png"

  /** `s.split(sep)` for a one-character separator: the pieces between separators, empty ones included. */
  function Split(s: string, sep: char): (parts: seq<string>)
    ensures |parts| >= 1
    ensures forall i :: 0 <= i < |parts| ==> sep !in parts[i]
    ensures Join(parts, sep) == s
    decreases |s|
  {
    if s == [] then [""]
    else
      var rest := Split(s[1..], sep);
      if s[0] == sep then
        var parts := [""] + rest;
        assert parts[1..] == rest;
        assert s == [sep] + s[1..];
        parts
      else
        var parts := [[s[0]] + rest[0]] + rest[1..];
        assert s == [s[0]] + s[1..];
        if |rest| == 1 then parts
        else
          assert parts[1..] == rest[1..];
          assert Join(rest, sep) == rest[0] + [sep] + Join(rest[1..], sep);
          parts
  }

  /** `parts.join(sep)`. */
  function Join(parts: seq<string>, sep: char): string
    requires |parts| >= 1
    decreases |parts|
  {
    if |parts| == 1 then parts[0] else parts[0] + [sep] + Join(parts[1..], sep)
  }

  /** Separator-free pieces are recovered from their join: the other half of the round trip. */
  lemma {:induction false} JoinInjective(p1: seq<string>, p2: seq<string>, sep: char)
    requires |p1| >= 1 && |p2| >= 1
    requires forall i :: 0 <= i < |p1| ==> sep !in p1[i]
    requires forall i :: 0 <= i < |p2| ==> sep !in p2[i]
    requires Join(p1, sep) == Join(p2, sep)
    ensures p1 == p2
    decreases |p1|
  {
    JoinHasSep(p1, sep);
    JoinHasSep(p2, sep);
    if |p1| > 1 && |p2| > 1 {
      FirstSeparator(p1[0], Join(p1[1..], sep), p2[0], Join(p2[1..], sep), sep);
      JoinInjective(p1[1..], p2[1..], sep);
      assert p1 == [p1[0]] + p1[1..];
      assert p2 == [p2[0]] + p2[1..];
    }
  }

  /** A join of several pieces holds the separator; a single piece is its own join. */
  lemma JoinHasSep(parts: seq<string>, sep: char)
    requires |parts| >= 1
    ensures |parts| > 1 ==> sep in Join(parts, sep)
    ensures |parts| == 1 ==> Join(parts, sep) == parts[0]
  {
    if |parts| > 1 {
      assert Join(parts, sep)[|parts[0]|] == sep;
    }
  }

  lemma SplitJoin(parts: seq<string>, sep: char)
    requires |parts| >= 1
    requires forall i :: 0 <= i < |parts| ==> sep !in parts[i]
    ensures Split(Join(parts, sep), sep) == parts
  {
    JoinInjective(Split(Join(parts, sep), sep), parts, sep);
  }

  /** Joining all but the last piece, then the separator, then the last piece. */
  lemma {:induction false} JoinLast(parts: seq<string>, sep: char)
    requires |parts| > 1
    ensures Join(parts, sep) == Join(parts[..|parts| - 1], sep) + [sep] + parts[|parts| - 1]
    decreases |parts|
  {
    if |parts| > 2 {
      JoinLast(parts[1..], sep);
      assert parts[1..][..|parts| - 2] == parts[..|parts| - 1][1..];
    } else {
      assert parts[..1] == [parts[0]];
    }
  }

  /** `t` is what follows the last `sep` of `s` (all of `s` when it holds none). */
  predicate IsLastSegment(s: string, t: string, sep: char) {
    && |t| <= |s|
    && s[|s| - |t|..] == t
    && sep !in t
    && (|t| == |s| || s[|s| - |t| - 1] == sep)
  }

  /** There is only one text after the last separator. */
  lemma LastSegmentUnique(s: string, t1: string, t2: string, sep: char)
    requires IsLastSegment(s, t1, sep) && IsLastSegment(s, t2, sep)
    ensures t1 == t2
  {
    assert forall i :: 0 <= i < |t1| ==> t1[i] == s[|s| - |t1| + i];
    assert forall i :: 0 <= i < |t2| ==> t2[i] == s[|s| - |t2| + i];
  }

  /** Without a separator, the last segment is the whole text. */
  lemma LastSegmentUniqueWhenFree(s: string, t: string, sep: char)
    requires IsLastSegment(s, t, sep)
    ensures sep !in s ==> t == s
  {
    if sep !in s {
      LastSegmentUnique(s, t, s, sep);
    }
  }

  /** `s.split(sep).at(-1)`. */
  function LastSegment(s: string, sep: char): (t: string)
    ensures IsLastSegment(s, t, sep)
  {
    var parts := Split(s, sep);
    var t := parts[|parts| - 1];
    if |parts| > 1 then
      JoinLast(parts, sep);
      assert s == Join(parts[..|parts| - 1], sep) + [sep] + t;
      t
    else
      t
  }

  /**
   * The storage key for an export URL: the text after its last `/`, plus `.png`.
   * Without a `/`, the whole URL is the stem.
   */
  function DeriveKey(imageUrl: string): (key: string)
    ensures |key| >= |PngSuffix| && key[|key| - |PngSuffix|..] == PngSuffix
    ensures IsLastSegment(imageUrl, key[..|key| - |PngSuffix|], Slash)
    ensures Slash !in key[..|key| - |PngSuffix|]
    ensures Slash !in imageUrl ==> key == imageUrl + PngSuffix
  {
    var stem := LastSegment(imageUrl, Slash);
    var key := stem + PngSuffix;
    assert key[..|key| - |PngSuffix|] == stem;
    assert Slash !in imageUrl ==> IsLastSegment(imageUrl, imageUrl, Slash);
    LastSegmentUniqueWhenFree(imageUrl, stem, Slash);
    key
  }

  /** The stem a key was derived from: `key` without its `.png`. */
  function KeyStem(key: string): string
    requires |key| >= |PngSuffix|
  {
    key[..|key| - |PngSuffix|]
  }

  /**
   * Two export URLs collide on a key exactly when their final path segments
   * agree: distinct final segments give distinct keys.
   */
  lemma DeriveKeyCollisions(u1: string, u2: string)
    ensures DeriveKey(u1) == DeriveKey(u2) <==> LastSegment(u1, Slash) == LastSegment(u2, Slash)
  {
    var k1 := DeriveKey(u1);
    var k2 := DeriveKey(u2);
    LastSegmentUnique(u1, KeyStem(k1), LastSegment(u1, Slash), Slash);
    LastSegmentUnique(u2, KeyStem(k2), LastSegment(u2, Slash), Slash);
  }

  /** A URL whose path ends in `/<stem>` is stored under `<stem>.png`. */
  lemma DeriveKeyOfPath(dir: string, stem: string)
    requires Slash !in stem
    ensures DeriveKey(dir + [Slash] + stem) == stem + PngSuffix
  {
    var u := dir + [Slash] + stem;
    assert u[|u| - |stem|..] == stem;
    assert u[|u| - |stem| - 1] == Slash;
    LastSegmentUnique(u, KeyStem(DeriveKey(u)), stem, Slash);
  }

  const ExampleDir: string := "https://cdn.example/export"
  const ExampleStem: string := "xyz789"
  const ExampleExportUrl: string := ExampleDir + [Slash] + ExampleStem

  /**
   * The worked example: the export `https://cdn.example/export/xyz789` is stored
   * under `xyz789.png`.
   */
  lemma DeriveKeyExample()
    ensures ExampleExportUrl == "https://cdn.example/export/xyz789"
    ensures DeriveKey(ExampleExportUrl) == "xyz789.png"
  {
    DeriveKeyOfPath(ExampleDir, ExampleStem);
  }
}
