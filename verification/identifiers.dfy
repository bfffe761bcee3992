/**
 * Identifier extraction: the two regular-expression matches that pull the
 * document key and the node id out of a design-tool link. Both upload variants
 * use exactly these patterns, so both share this module.
 */
module Identifiers {
  import opened Wrappers
  import opened Text
  import opened Regex

  const FilePrefix: string := "/file/"
  const NodePrefix: string := "node-id="

  /** `/\/file\/([a-zA-Z0-9]+)/` */
  const FileKeyPattern: Pattern := Pattern(Lits(FilePrefix) + [Plus(Alnum)], 6, 7)

  /** The part of `/node-id=(\d+-\d+)/` after the literal prefix. */
  const DashedDigits: seq<Atom> := [Plus(Digit), Lit('-'), Plus(Digit)]

  /** `/node-id=(\d+-\d+)/` */
  const NodeIdPattern: Pattern := Pattern(Lits(NodePrefix) + DashedDigits, 8, 11)

  datatype Identifiers = Identifiers(fileKey: string, nodeId: string)

  // ---------------------------------------------------------------------------
  // The declarative reading of the two patterns
  // ---------------------------------------------------------------------------

  /** `/file/` occurs at `i` and is followed by an alphanumeric character. */
  predicate FileKeyAt(s: string, i: nat) {
    i + |FilePrefix| < |s| && s[i..i + |FilePrefix|] == FilePrefix && IsAlnum(s[i + |FilePrefix|])
  }

  /** A digit run starting at `q` is followed by `-` and at least one more digit. */
  predicate DashedDigitsAt(s: string, q: nat)
    requires q <= |s|
  {
    var m := RunEnd(s, q, Digit);
    q < m && m + 1 < |s| && s[m] == '-' && IsDigit(s[m + 1])
  }

  /** `node-id=` occurs at `i` and is followed by `<digits>-<digits>`. */
  predicate NodeIdAt(s: string, i: nat) {
    i + |NodePrefix| <= |s| && s[i..i + |NodePrefix|] == NodePrefix && DashedDigitsAt(s, i + |NodePrefix|)
  }

  predicate FirstFileKeyAt(s: string, i: nat) {
    FileKeyAt(s, i) && forall j :: 0 <= j < i ==> !FileKeyAt(s, j)
  }

  predicate FirstNodeIdAt(s: string, i: nat) {
    NodeIdAt(s, i) && forall j :: 0 <= j < i ==> !NodeIdAt(s, j)
  }

  /** `v` is a non-empty, maximal run of `cls` characters found in `s` at `start`. */
  predicate CapturedRun(s: string, start: nat, v: string, cls: CharClass) {
    && start + |v| <= |s|
    && s[start..start + |v|] == v
    && |v| > 0
    && AllIn(v, cls)
    && (start + |v| == |s| || !InClass(cls, s[start + |v|]))
  }

  /** `v` has the form `<digits>-<digits>`, both runs non-empty. */
  predicate NodeIdShape(v: string) {
    exists d :: 0 < d < |v| - 1 && v[d] == '-' && AllIn(v[..d], Digit) && AllIn(v[d + 1..], Digit)
  }

  /** `v` is a node id found in `s` at `start` whose second digit run is maximal. */
  predicate CapturedNodeId(s: string, start: nat, v: string) {
    && start + |v| <= |s|
    && s[start..start + |v|] == v
    && NodeIdShape(v)
    && (start + |v| == |s| || !IsDigit(s[start + |v|]))
  }

  // ---------------------------------------------------------------------------
  // The matcher agrees with the declarative reading, position by position
  // ---------------------------------------------------------------------------

  lemma FileKeyMatchAt(s: string, j: nat)
    requires j <= |s|
    ensures MatchesAt(FileKeyPattern, s, j) <==> FileKeyAt(s, j)
    ensures FileKeyAt(s, j) ==> CapturedRun(s, j + 6, Group(FileKeyPattern, s, j), Alnum)
  {
    FileKeyMatchesAt(s, j);
    if FileKeyAt(s, j) {
      FileKeyCapturedAt(s, j);
    }
  }

  lemma FileKeyMatchesAt(s: string, j: nat)
    requires j <= |s|
    ensures MatchesAt(FileKeyPattern, s, j) <==> FileKeyAt(s, j)
  {
    MatchLits(FilePrefix, [Plus(Alnum)], s, j);
    if j + 6 <= |s| {
      PlusLast(Alnum, s, j + 6);
    }
  }

  lemma FileKeyCapturedAt(s: string, j: nat)
    requires j <= |s| && FileKeyAt(s, j)
    ensures MatchesAt(FileKeyPattern, s, j)
    ensures CapturedRun(s, j + 6, Group(FileKeyPattern, s, j), Alnum)
  {
    FileKeyMatchesAt(s, j);
    MatchLits(FilePrefix, [Plus(Alnum)], s, j);
    PlusLast(Alnum, s, j + 6);
    GroupAfterLits(FileKeyPattern, FilePrefix, [Plus(Alnum)], s, j);
  }

  /** While the `\d+` still holds only digits, giving characters back cannot help `-` match. */
  lemma {:induction false} GiveBackFails(s: string, q: nat, k: nat)
    requires q <= |s| && q + k < RunEnd(s, q, Digit)
    ensures TryRun(DashedDigits[1..], s, q, k) == None
    decreases k
  {
    var rest := DashedDigits[1..];
    if k > 0 {
      assert IsDigit(s[q + k]);
      assert rest == [Lit('-')] + [Plus(Digit)];
      MatchLit('-', [Plus(Digit)], s, q + k);
      GiveBackFails(s, q, k - 1);
    }
  }

  lemma DashedDigitsMatch(s: string, q: nat)
    requires q <= |s|
    ensures MatchFrom(DashedDigits, s, q)
         == if DashedDigitsAt(s, q)
            then var m := RunEnd(s, q, Digit); Some([q, m, m + 1, RunEnd(s, m + 1, Digit)])
            else None
  {
    var m := RunEnd(s, q, Digit);
    var rest := DashedDigits[1..];
    assert rest == [Lit('-')] + [Plus(Digit)];
    assert MatchFrom(DashedDigits, s, q) == TryRun(rest, s, q, m - q);
    if m > q {
      GiveBackFails(s, q, m - q - 1);
      MatchLit('-', [Plus(Digit)], s, m);
      if m < |s| && s[m] == '-' {
        PlusLast(Digit, s, m + 1);
        if DashedDigitsAt(s, q) {
          var e := RunEnd(s, m + 1, Digit);
          assert MatchFrom([Plus(Digit)], s, m + 1) == Some([m + 1, e]);
          assert Range(m, 1) + [m + 1, e] == [m, m + 1, e];
          assert MatchFrom(rest, s, m) == Some([m, m + 1, e]);
          assert [q] + [m, m + 1, e] == [q, m, m + 1, e];
        }
      }
    }
  }

  /** The text the node-id group takes, given that the shape occurs at `q`. */
  lemma DashedDigitsShape(s: string, q: nat)
    requires q <= |s| && DashedDigitsAt(s, q)
    ensures var m := RunEnd(s, q, Digit); CapturedNodeId(s, q, s[q..RunEnd(s, m + 1, Digit)])
  {
    var m := RunEnd(s, q, Digit);
    var e := RunEnd(s, m + 1, Digit);
    var v := s[q..e];
    var d := m - q;
    assert v[..d] == s[q..m];
    assert v[d + 1..] == s[m + 1..e];
    assert v[d] == '-';
    assert NodeIdShape(v);
  }

  lemma NodeIdMatchAt(s: string, j: nat)
    requires j <= |s|
    ensures MatchesAt(NodeIdPattern, s, j) <==> NodeIdAt(s, j)
    ensures NodeIdAt(s, j) ==> CapturedNodeId(s, j + 8, Group(NodeIdPattern, s, j))
  {
    NodeIdMatchesAt(s, j);
    if NodeIdAt(s, j) {
      NodeIdCapturedAt(s, j);
    }
  }

  lemma NodeIdMatchesAt(s: string, j: nat)
    requires j <= |s|
    ensures MatchesAt(NodeIdPattern, s, j) <==> NodeIdAt(s, j)
  {
    MatchLits(NodePrefix, DashedDigits, s, j);
    if j + 8 <= |s| {
      DashedDigitsMatch(s, j + 8);
    }
  }

  lemma NodeIdCapturedAt(s: string, j: nat)
    requires j <= |s| && NodeIdAt(s, j)
    ensures MatchesAt(NodeIdPattern, s, j)
    ensures CapturedNodeId(s, j + 8, Group(NodeIdPattern, s, j))
  {
    NodeIdGroup(s, j);
    DashedDigitsShape(s, j + 8);
  }

  /** The text the node-id group takes at a position where the shape occurs. */
  lemma NodeIdGroup(s: string, j: nat)
    requires j <= |s| && NodeIdAt(s, j)
    ensures MatchesAt(NodeIdPattern, s, j)
    ensures Group(NodeIdPattern, s, j) == NodeIdText(s, j + 8)
  {
    assert s[j..j + |NodePrefix|] == NodePrefix;
    DashedDigitsMatch(s, j + 8);
    GroupAfterLits(NodeIdPattern, NodePrefix, DashedDigits, s, j);
  }

  /** Where the matcher's search for the document key stops, read declaratively. */
  lemma SearchNoneFileKey(s: string)
    ensures Search(FileKeyPattern, s, 0).None? <==> forall i :: 0 <= i <= |s| ==> !FileKeyAt(s, i)
  {
    forall j | 0 <= j <= |s| ensures MatchesAt(FileKeyPattern, s, j) <==> FileKeyAt(s, j) {
      FileKeyMatchesAt(s, j);
    }
  }

  /** Where it stops when it finds one: the leftmost occurrence, and its capture. */
  lemma SearchFoundFileKey(s: string)
    ensures Search(FileKeyPattern, s, 0).Some? ==>
              var i := Search(FileKeyPattern, s, 0).value;
              FirstFileKeyAt(s, i) && CapturedRun(s, i + |FilePrefix|, Group(FileKeyPattern, s, i), Alnum)
  {
    if Search(FileKeyPattern, s, 0).Some? {
      var i := Search(FileKeyPattern, s, 0).value;
      forall j | 0 <= j < i ensures !FileKeyAt(s, j) {
        FileKeyMatchesAt(s, j);
      }
      FileKeyMatchesAt(s, i);
      FileKeyCapturedAt(s, i);
    }
  }

  /** Where the matcher's search for the node id stops, read declaratively. */
  lemma SearchNoneNodeId(s: string)
    ensures Search(NodeIdPattern, s, 0).None? <==> forall i :: 0 <= i <= |s| ==> !NodeIdAt(s, i)
  {
    forall j | 0 <= j <= |s| ensures MatchesAt(NodeIdPattern, s, j) <==> NodeIdAt(s, j) {
      NodeIdMatchesAt(s, j);
    }
  }

  /** Where it stops when it finds one: the leftmost occurrence, and its capture. */
  lemma SearchFoundNodeId(s: string)
    ensures Search(NodeIdPattern, s, 0).Some? ==>
              var i := Search(NodeIdPattern, s, 0).value;
              FirstNodeIdAt(s, i) && CapturedNodeId(s, i + |NodePrefix|, Group(NodeIdPattern, s, i))
  {
    if Search(NodeIdPattern, s, 0).Some? {
      var i := Search(NodeIdPattern, s, 0).value;
      forall j | 0 <= j < i ensures !NodeIdAt(s, j) {
        NodeIdMatchesAt(s, j);
      }
      NodeIdMatchesAt(s, i);
      NodeIdCapturedAt(s, i);
    }
  }

  // ---------------------------------------------------------------------------
  // The two extractions
  // ---------------------------------------------------------------------------

  /**
   * The document key: the longest alphanumeric run after the leftmost `/file/`
   * that is followed by an alphanumeric character.
   */
  function FileKey(s: string): (r: Option<string>)
    ensures r.None? <==> forall i :: 0 <= i <= |s| ==> !FileKeyAt(s, i)
    ensures r.Some? ==> exists i: nat :: FirstFileKeyAt(s, i) && CapturedRun(s, i + |FilePrefix|, r.value, Alnum)
  {
    SearchNoneFileKey(s);
    SearchFoundFileKey(s);
    Exec(FileKeyPattern, s)
  }

  /**
   * The node id: `<digits>-<digits>` after the leftmost `node-id=` where that
   * shape occurs, with both digit runs maximal.
   */
  function NodeId(s: string): (r: Option<string>)
    ensures r.None? <==> forall i :: 0 <= i <= |s| ==> !NodeIdAt(s, i)
    ensures r.Some? ==> exists i: nat :: FirstNodeIdAt(s, i) && CapturedNodeId(s, i + |NodePrefix|, r.value)
  {
    SearchNoneNodeId(s);
    SearchFoundNodeId(s);
    Exec(NodeIdPattern, s)
  }

  /** A document key is found exactly when the pattern occurs, and is a non-empty alphanumeric run. */
  lemma FileKeyFound(s: string)
    ensures FileKey(s).Some? <==> exists i: nat :: FileKeyAt(s, i)
    ensures FileKey(s).Some? ==> |FileKey(s).value| > 0 && AllIn(FileKey(s).value, Alnum)
  {
    if FileKey(s).Some? {
      var i: nat :| FirstFileKeyAt(s, i) && CapturedRun(s, i + |FilePrefix|, FileKey(s).value, Alnum);
      assert FileKeyAt(s, i);
    } else {
      assert forall i: nat :: i <= |s| ==> !FileKeyAt(s, i);
    }
  }

  /** A node id is found exactly when the shape occurs, and has that shape. */
  lemma NodeIdFound(s: string)
    ensures NodeId(s).Some? <==> exists i: nat :: NodeIdAt(s, i)
    ensures NodeId(s).Some? ==> |NodeId(s).value| > 0 && NodeIdShape(NodeId(s).value)
  {
    if NodeId(s).Some? {
      var i: nat :| FirstNodeIdAt(s, i) && CapturedNodeId(s, i + |NodePrefix|, NodeId(s).value);
      assert NodeIdAt(s, i);
    } else {
      assert forall i: nat :: i <= |s| ==> !NodeIdAt(s, i);
    }
  }

  /**
   * `if (!fileKey || !nodeId)`: both identifiers must be present and non-empty.
   * The emptiness half of the test never fires, since both captures are
   * non-empty whenever they exist.
   */
  function ExtractIds(url: string): (r: Option<Identifiers>)
    ensures r.Some? <==> (exists i: nat :: FileKeyAt(url, i)) && (exists i: nat :: NodeIdAt(url, i))
    ensures r.Some? ==> Some(r.value.fileKey) == FileKey(url) && Some(r.value.nodeId) == NodeId(url)
    ensures r.Some? ==> |r.value.fileKey| > 0 && AllIn(r.value.fileKey, Alnum) && NodeIdShape(r.value.nodeId)
  {
    FileKeyFound(url);
    NodeIdFound(url);
    var fileKey := FileKey(url);
    var nodeId := NodeId(url);
    if !Truthy(fileKey) || !Truthy(nodeId) then None
    else Some(Identifiers(fileKey.value, nodeId.value))
  }

  // ---------------------------------------------------------------------------
  // The declarative reading determines the captures
  // ---------------------------------------------------------------------------

  /** A captured run ends exactly where the maximal run does. */
  lemma CapturedRunDetermined(s: string, start: nat, v: string, cls: CharClass)
    requires CapturedRun(s, start, v, cls)
    ensures v == s[start..RunEnd(s, start, cls)]
  {
    assert MaximalRun(s, start, start + |v|, cls) by {
      forall k | start <= k < start + |v| ensures InClass(cls, s[k]) {
        assert s[k] == v[k - start];
      }
    }
    MaximalRunUnique(s, start, start + |v|, RunEnd(s, start, cls), cls);
  }

  /** A captured node id is the digit run, the dash and the following maximal digit run. */
  lemma CapturedNodeIdDetermined(s: string, q: nat, v: string)
    requires CapturedNodeId(s, q, v)
    ensures DashedDigitsAt(s, q)
    ensures v == NodeIdText(s, q)
  {
    var d :| 0 < d < |v| - 1 && v[d] == '-' && AllIn(v[..d], Digit) && AllIn(v[d + 1..], Digit);
    LeadingDigitsOfNodeId(s, q, v, d);
    TrailingDigitsOfNodeId(s, q, v, d);
    assert s[q + d] == v[d];
    assert s[q + d + 1] == v[d + 1..][0];
  }

  /** The first digit run of a captured node id is maximal: the dash stops it. */
  lemma LeadingDigitsOfNodeId(s: string, q: nat, v: string, d: nat)
    requires CapturedNodeId(s, q, v)
    requires 0 < d < |v| - 1 && v[d] == '-' && AllIn(v[..d], Digit)
    ensures RunEnd(s, q, Digit) == q + d
  {
    assert MaximalRun(s, q, q + d, Digit) by {
      forall k | q <= k < q + d ensures IsDigit(s[k]) {
        assert s[k] == v[..d][k - q];
      }
      assert s[q + d] == v[d];
    }
    MaximalRunUnique(s, q, q + d, RunEnd(s, q, Digit), Digit);
  }

  /** The second digit run of a captured node id ends where the capture does. */
  lemma TrailingDigitsOfNodeId(s: string, q: nat, v: string, d: nat)
    requires CapturedNodeId(s, q, v)
    requires 0 < d < |v| - 1 && AllIn(v[d + 1..], Digit)
    ensures RunEnd(s, q + d + 1, Digit) == q + |v|
  {
    assert MaximalRun(s, q + d + 1, q + |v|, Digit) by {
      forall k | q + d + 1 <= k < q + |v| ensures IsDigit(s[k]) {
        assert s[k] == v[d + 1..][k - q - d - 1];
      }
    }
    MaximalRunUnique(s, q + d + 1, q + |v|, RunEnd(s, q + d + 1, Digit), Digit);
  }

  /** The leftmost `/file/` position fixes the document key. */
  lemma FileKeyDetermined(s: string, i: nat)
    requires FirstFileKeyAt(s, i)
    ensures FileKey(s) == Some(s[i + |FilePrefix|..RunEnd(s, i + |FilePrefix|, Alnum)])
  {
    var i': nat :| FirstFileKeyAt(s, i') && CapturedRun(s, i' + |FilePrefix|, FileKey(s).value, Alnum);
    assert i' == i;
    CapturedRunDetermined(s, i + |FilePrefix|, FileKey(s).value, Alnum);
  }

  lemma FirstNodeIdUnique(s: string, a: nat, b: nat)
    requires FirstNodeIdAt(s, a) && FirstNodeIdAt(s, b)
    ensures a == b
  {
    assert !(a < b) by {
      assert forall j :: 0 <= j < b ==> !NodeIdAt(s, j);
    }
    assert !(b < a) by {
      assert forall j :: 0 <= j < a ==> !NodeIdAt(s, j);
    }
  }

  /** The node id that the shape at `q` spells: digits, `-`, and the maximal digit run after it. */
  function NodeIdText(s: string, q: nat): string
    requires q <= |s| && DashedDigitsAt(s, q)
  {
    s[q..RunEnd(s, RunEnd(s, q, Digit) + 1, Digit)]
  }

  lemma FirstNodeIdFound(s: string, i: nat)
    requires FirstNodeIdAt(s, i)
    ensures Search(NodeIdPattern, s, 0) == Some(i)
  {
    SearchNoneNodeId(s);
    assert Search(NodeIdPattern, s, 0).Some? by {
      assert NodeIdAt(s, i);
    }
    SearchFoundNodeId(s);
    FirstNodeIdUnique(s, i, Search(NodeIdPattern, s, 0).value);
  }

  /** The leftmost `node-id=` position where the shape occurs fixes the node id. */
  lemma NodeIdDetermined(s: string, i: nat)
    requires FirstNodeIdAt(s, i)
    ensures NodeId(s) == Some(NodeIdText(s, i + |NodePrefix|))
  {
    FirstNodeIdFound(s, i);
    NodeIdMatchAt(s, i);
    CapturedNodeIdDetermined(s, i + |NodePrefix|, Group(NodeIdPattern, s, i));
  }

  // ---------------------------------------------------------------------------
  // Worked examples
  // ---------------------------------------------------------------------------

  const LinkHead: string := "https://www.figma.com"
  const LinkFile: string := "/file/ABC123"
  const LinkTail: string := "/Name?node-id=10-20"
  const Link: string := LinkHead + LinkFile + LinkTail

  /** Reading the example link piece by piece. */
  lemma LinkPieces()
    ensures |Link| == 52
    ensures forall k :: 0 <= k < 21 ==> Link[k] == LinkHead[k]
    ensures forall k :: 21 <= k < 33 ==> Link[k] == LinkFile[k - 21]
    ensures forall k :: 33 <= k < 52 ==> Link[k] == LinkTail[k - 33]
  {
  }

  lemma LinkFileKey()
    ensures FileKey(Link) == Some("ABC123")
  {
    LinkFileKeyAt21();
    LinkKeyRun();
    FileKeyDetermined(Link, 21);
  }

  lemma LinkFileKeyAt21()
    ensures FirstFileKeyAt(Link, 21)
  {
    LinkPieces();
    NoFileKeyBefore21();
    assert Link[21..27] == LinkFile[..6] == FilePrefix;
  }

  lemma LinkKeyRun()
    ensures RunEnd(Link, 27, Alnum) == 33 && Link[27..33] == "ABC123"
  {
    LinkPieces();
    assert MaximalRun(Link, 27, 33, Alnum);
    MaximalRunUnique(Link, 27, 33, RunEnd(Link, 27, Alnum), Alnum);
    assert Link[27..33] == LinkFile[6..] == "ABC123";
  }

  lemma NoFileKeyBefore21()
    ensures forall j :: 0 <= j < 21 ==> !FileKeyAt(Link, j)
  {
    LinkPieces();
    assert forall k :: 0 <= k < 20 ==> LinkHead[k] != '/' || LinkHead[k + 1] != 'f';
    forall j | 0 <= j < 21 ensures !FileKeyAt(Link, j) {
      assert Link[j..j + 6][0] == Link[j] && Link[j..j + 6][1] == Link[j + 1];
    }
  }

  lemma NoNodeIdBefore39()
    ensures forall j :: 0 <= j < 39 ==> !NodeIdAt(Link, j)
  {
    LinkPieces();
    assert forall k :: 0 <= k < 21 ==> LinkHead[k] != 'n';
    assert forall k :: 0 <= k < 12 ==> LinkFile[k] != 'n';
    assert forall k :: 0 <= k < 6 ==> LinkTail[k] != 'n';
    forall j | 0 <= j < 39 ensures !NodeIdAt(Link, j) {
      assert Link[j..j + 8][0] == Link[j];
    }
  }

  lemma LinkNodeIdAt39()
    ensures NodeIdAt(Link, 39)
    ensures NodeIdText(Link, 47) == "10-20"
  {
    LinkPieces();
    assert Link[39..47] == LinkTail[6..14] == NodePrefix;
    assert MaximalRun(Link, 47, 49, Digit);
    MaximalRunUnique(Link, 47, 49, RunEnd(Link, 47, Digit), Digit);
    assert MaximalRun(Link, 50, 52, Digit);
    MaximalRunUnique(Link, 50, 52, RunEnd(Link, 50, Digit), Digit);
    assert Link[47..52] == LinkTail[14..] == "10-20";
  }

  lemma LinkNodeId()
    ensures NodeId(Link) == Some("10-20")
  {
    NoNodeIdBefore39();
    LinkNodeIdAt39();
    NodeIdDetermined(Link, 39);
  }

  /** The worked example of a design-tool link. */
  lemma FigmaLinkExample()
    ensures ExtractIds("https://www.figma.com/file/ABC123/Name?node-id=10-20")
         == Some(Identifiers("ABC123", "10-20"))
  {
    LinkSpelled();
    LinkIds();
  }

  lemma LinkSpelled()
    ensures Link == "https://www.figma.com/file/ABC123/Name?node-id=10-20"
  {
    assert LinkHead + LinkFile == "https://www.figma.com/file/ABC123";
  }

  lemma LinkIds()
    ensures ExtractIds(Link) == Some(Identifiers("ABC123", "10-20"))
  {
    LinkFileKey();
    LinkNodeId();
  }

  /** A link without a `/file/` segment is rejected. */
  lemma OtherLinkExample()
    ensures ExtractIds("https://example.com/not-a-figma-link") == None
  {
    var s := "https://example.com/not-a-figma-link";
    assert forall k :: 0 <= k < |s| - 1 ==> s[k] != '/' || s[k + 1] != 'f';
    forall j | 0 <= j <= |s| ensures !FileKeyAt(s, j) {
      if j + 6 < |s| {
        assert s[j..j + 6][0] == s[j] && s[j..j + 6][1] == s[j + 1];
      }
    }
  }

  /** An empty body is rejected. */
  lemma EmptyInputRejected()
    ensures ExtractIds("") == None
  {
  }
}
