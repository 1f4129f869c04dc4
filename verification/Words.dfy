/** The word list, and the string splitting and joining that phrases and invite codes share. */
module Words {
  import opened Common

  /** What the codecs use of the BIP39 English list: 2048 distinct words of lowercase letters. */
  ghost predicate WordList(list: seq<string>) {
    && |list| == 2048
    && NoDuplicates(list)
    && forall i :: 0 <= i < |list| ==> IsWord(list[i])
  }

  ghost predicate IsWord(w: string) {
    w != "" && forall i :: 0 <= i < |w| ==> 'a' <= w[i] <= 'z'
  }

  datatype CodeError = WrongWordCount(got: nat) | UnknownWord(word: string)

  /** Unicode's White_Space property, which `split_whitespace` and `trim` go by. */
  predicate IsWhitespace(c: char) {
    var u := c as int;
    || 0x9 <= u <= 0xD || u == 0x20 || u == 0x85 || u == 0xA0 || u == 0x1680
    || 0x2000 <= u <= 0x200A || u == 0x2028 || u == 0x2029 || u == 0x202F || u == 0x205F || u == 0x3000
  }

  predicate IsDash(c: char) {
    c == '-'
  }

  // ---------------------------------------------------------------------------------------------
  // Splitting and joining

  /** `split`: the pieces between separators, empty ones included. */
  function Split(s: string, sep: char -> bool): (pieces: seq<string>)
    ensures pieces != []
  {
    if s == "" then [""]
    else
      var rest := Split(s[1..], sep);
      if sep(s[0]) then [""] + rest else [[s[0]] + rest[0]] + rest[1..]
  }

  function NonEmpty(pieces: seq<string>): seq<string> {
    if pieces == [] then []
    else (if pieces[0] == "" then [] else [pieces[0]]) + NonEmpty(pieces[1..])
  }

  /** The pieces of a split that are not empty. */
  function Fields(s: string, sep: char -> bool): seq<string> {
    NonEmpty(Split(s, sep))
  }

  function SplitWhitespace(s: string): seq<string> {
    Fields(s, IsWhitespace)
  }

  function Join(pieces: seq<string>, c: char): string {
    if pieces == [] then ""
    else if |pieces| == 1 then pieces[0]
    else pieces[0] + [c] + Join(pieces[1..], c)
  }

  ghost predicate Free(s: string, sep: char -> bool) {
    forall i :: 0 <= i < |s| ==> !sep(s[i])
  }

  lemma {:induction false} SplitFree(s: string, sep: char -> bool)
    requires Free(s, sep)
    ensures Split(s, sep) == [s]
  {
    if s == "" {
    } else {
      SplitFree(s[1..], sep);
      assert [s[0]] + s[1..] == s;
    }
  }

  lemma {:induction false} SplitFirst(s: string, c: char, rest: string, sep: char -> bool)
    requires Free(s, sep) && sep(c)
    ensures Split(s + [c] + rest, sep) == [s] + Split(rest, sep)
  {
    var all := s + [c] + rest;
    if s == "" {
      assert all[1..] == rest;
    } else {
      SplitFirst(s[1..], c, rest, sep);
      assert all[1..] == s[1..] + [c] + rest;
      assert [s[0]] + s[1..] == s;
    }
  }

  /** Splitting what was joined with a separator gives the pieces back. */
  lemma {:induction false} SplitJoin(pieces: seq<string>, c: char, sep: char -> bool)
    requires pieces != [] && sep(c) && forall i :: 0 <= i < |pieces| ==> Free(pieces[i], sep)
    ensures Split(Join(pieces, c), sep) == pieces
  {
    if |pieces| == 1 {
      SplitFree(pieces[0], sep);
    } else {
      SplitJoin(pieces[1..], c, sep);
      SplitFirst(pieces[0], c, Join(pieces[1..], c), sep);
    }
  }

  lemma JoinHead(head: string, c: char, tail: seq<string>)
    requires tail != []
    ensures Join([head] + tail, c) == head + [c] + Join(tail, c)
  {
    assert ([head] + tail)[1..] == tail;
  }

  /** A character put before the first piece comes first in the joined string. */
  lemma JoinLonger(x: char, c: char, pieces: seq<string>)
    requires pieces != []
    ensures Join([[x] + pieces[0]] + pieces[1..], c) == [x] + Join(pieces, c)
  {
    var head := pieces[0];
    if |pieces| > 1 {
      var tail := Join(pieces[1..], c);
      JoinHead([x] + head, c, pieces[1..]);
      assert [x] + head + [c] + tail == [x] + (head + [c] + tail);
    }
  }

  /** Joining the pieces of a split at `-` gives the string back. */
  lemma {:induction false} JoinSplit(s: string)
    ensures Join(Split(s, IsDash), '-') == s
  {
    if s == "" {
    } else {
      JoinSplit(s[1..]);
      var rest := Split(s[1..], IsDash);
      if IsDash(s[0]) {
        JoinHead("", '-', rest);
        assert "" + ['-'] + s[1..] == s;
      } else {
        JoinLonger(s[0], '-', rest);
        assert [s[0]] + s[1..] == s;
      }
    }
  }

  lemma {:induction false} NonEmptyKeeps(pieces: seq<string>)
    requires forall i :: 0 <= i < |pieces| ==> pieces[i] != ""
    ensures NonEmpty(pieces) == pieces
  {
    if pieces == [] {
    } else {
      NonEmptyKeeps(pieces[1..]);
    }
  }

  // ---------------------------------------------------------------------------------------------
  // The words of a string

  /** `ws`, found at the positions `at`, are the maximal runs without separators, in order, and there are no others. */
  ghost predicate RunsOf(s: string, sep: char -> bool, ws: seq<string>, at: seq<nat>) {
    |at| == |ws| && AllRuns(s, sep, ws, at) && InOrder(ws, at) && AllCovered(s, sep, ws, at)
  }

  ghost predicate AllRuns(s: string, sep: char -> bool, ws: seq<string>, at: seq<nat>)
    requires |at| == |ws|
  {
    forall i :: 0 <= i < |ws| ==> RunAt(s, sep, ws[i], at[i])
  }

  ghost predicate InOrder(ws: seq<string>, at: seq<nat>)
    requires |at| == |ws|
  {
    forall i, j :: 0 <= i < j < |ws| ==> at[i] + |ws[i]| < at[j]
  }

  ghost predicate AllCovered(s: string, sep: char -> bool, ws: seq<string>, at: seq<nat>)
    requires |at| == |ws|
  {
    forall p :: 0 <= p < |s| && !sep(s[p]) ==> Covered(ws, at, p)
  }

  ghost predicate RunAt(s: string, sep: char -> bool, w: string, p: nat) {
    && w != "" && p + |w| <= |s| && s[p..p + |w|] == w && Free(w, sep)
    && (p == 0 || sep(s[p - 1])) && (p + |w| == |s| || sep(s[p + |w|]))
  }

  ghost predicate Covered(ws: seq<string>, at: seq<nat>, p: nat)
    requires |at| == |ws|
  {
    exists i :: 0 <= i < |ws| && at[i] <= p < at[i] + |ws[i]|
  }

  function Shifted(at: seq<nat>): (at': seq<nat>)
    ensures |at'| == |at|
  {
    seq(|at|, i requires 0 <= i < |at| => at[i] + 1)
  }

  lemma ShiftRun(s: string, sep: char -> bool, w: string, p: nat)
    requires s != "" && RunAt(s[1..], sep, w, p) && (p == 0 ==> sep(s[0]))
    ensures RunAt(s, sep, w, p + 1)
  {
    var t := s[1..];
    assert s[p + 1..p + 1 + |w|] == t[p..p + |w|];
    assert p > 0 ==> s[p] == t[p - 1];
    assert p + |w| < |t| ==> s[p + 1 + |w|] == t[p + |w|];
  }

  lemma ShiftCovers(ws: seq<string>, at: seq<nat>, p: nat)
    requires |at| == |ws| && Covered(ws, at, p)
    ensures Covered(ws, Shifted(at), p + 1)
  {
    var i :| 0 <= i < |ws| && at[i] <= p < at[i] + |ws[i]|;
    assert Shifted(at)[i] <= p + 1 < Shifted(at)[i] + |ws[i]|;
  }

  /** A separator in front moves the runs by one. */
  lemma AfterSeparator(s: string, sep: char -> bool, ws: seq<string>, at: seq<nat>)
    requires s != "" && sep(s[0]) && RunsOf(s[1..], sep, ws, at)
    ensures RunsOf(s, sep, ws, Shifted(at))
  {
    forall i | 0 <= i < |ws| ensures RunAt(s, sep, ws[i], Shifted(at)[i]) {
      ShiftRun(s, sep, ws[i], at[i]);
    }
    forall p | 0 <= p < |s| && !sep(s[p]) ensures Covered(ws, Shifted(at), p) {
      assert s[1..][p - 1] == s[p];
      ShiftCovers(ws, at, p - 1);
    }
  }

  lemma FirstIsFree(t: string, sep: char -> bool, w: string, p: nat)
    requires RunAt(t, sep, w, p)
    ensures t != "" && (sep(t[0]) ==> p > 0)
  {
    assert w[0] == t[p];
  }

  lemma CoversBehind(ws: seq<string>, at: seq<nat>, w: string, p: nat)
    requires |at| == |ws| && Covered(ws, at, p)
    ensures Covered([w] + ws, [0] + at, p)
  {
    var i :| 0 <= i < |ws| && at[i] <= p < at[i] + |ws[i]|;
    var ws', at' := [w] + ws, [0] + at;
    assert ws'[i + 1] == ws[i] && at'[i + 1] == at[i];
  }

  lemma CoversFirst(ws: seq<string>, at: seq<nat>, p: nat)
    requires |at| == |ws| && ws != [] && at[0] == 0 && p < |ws[0]|
    ensures Covered(ws, at, p)
  {
    assert at[0] <= p < at[0] + |ws[0]|;
  }

  /** A character before a separator or the end is a run of its own. */
  lemma NewRun(s: string, sep: char -> bool, ws: seq<string>, at: seq<nat>)
    requires s != "" && !sep(s[0]) && (|s| == 1 || sep(s[1])) && RunsOf(s[1..], sep, ws, at)
    ensures RunsOf(s, sep, [[s[0]]] + ws, [0] + Shifted(at))
  {
    assert |s| > 1 ==> s[1..][0] == s[1];
    NewRunIsRun(s, sep, ws, at);
    NewRunIsFirst(s[1..], sep, [s[0]], ws, at);
    NewRunCovers(s, sep, ws, at);
  }

  lemma NewRunIsRun(s: string, sep: char -> bool, ws: seq<string>, at: seq<nat>)
    requires s != "" && !sep(s[0]) && (|s| == 1 || sep(s[1])) && |at| == |ws| && AllRuns(s[1..], sep, ws, at)
    ensures AllRuns(s, sep, [[s[0]]] + ws, [0] + Shifted(at))
  {
    var ws', at' := [[s[0]]] + ws, [0] + Shifted(at);
    assert s[0..1] == [s[0]];
    forall i | 0 <= i < |ws'| ensures RunAt(s, sep, ws'[i], at'[i]) {
      if i > 0 {
        assert ws'[i] == ws[i - 1] && at'[i] == at[i - 1] + 1;
        FirstIsFree(s[1..], sep, ws[i - 1], at[i - 1]);
        ShiftRun(s, sep, ws[i - 1], at[i - 1]);
      }
    }
  }

  lemma NewRunIsFirst(t: string, sep: char -> bool, c: string, ws: seq<string>, at: seq<nat>)
    requires |c| == 1 && |at| == |ws| && InOrder(ws, at) && AllRuns(t, sep, ws, at) && (t == "" || sep(t[0]))
    ensures InOrder([c] + ws, [0] + Shifted(at))
  {
    var ws', at' := [c] + ws, [0] + Shifted(at);
    forall i, j | 0 <= i < j < |ws'| ensures at'[i] + |ws'[i]| < at'[j] {
      assert at'[j] == at[j - 1] + 1;
      FirstIsFree(t, sep, ws[j - 1], at[j - 1]);
      if i > 0 {
        assert at[i - 1] + |ws[i - 1]| < at[j - 1];
      }
    }
  }

  lemma NewRunCovers(s: string, sep: char -> bool, ws: seq<string>, at: seq<nat>)
    requires s != "" && |at| == |ws| && AllCovered(s[1..], sep, ws, at)
    ensures AllCovered(s, sep, [[s[0]]] + ws, [0] + Shifted(at))
  {
    forall p | 0 <= p < |s| && !sep(s[p]) ensures Covered([[s[0]]] + ws, [0] + Shifted(at), p) {
      if p == 0 {
        CoversFirst([[s[0]]] + ws, [0] + Shifted(at), p);
      } else {
        assert s[1..][p - 1] == s[p];
        ShiftCovers(ws, at, p - 1);
        CoversBehind(ws, Shifted(at), [s[0]], p);
      }
    }
  }

  lemma FirstRun(t: string, sep: char -> bool, ws: seq<string>, at: seq<nat>)
    requires t != "" && !sep(t[0]) && |at| == |ws| && InOrder(ws, at) && AllCovered(t, sep, ws, at)
    ensures ws != [] && at[0] == 0
  {
    assert Covered(ws, at, 0);
    assert forall i :: 0 < i < |ws| ==> at[0] + |ws[0]| < at[i];
    var k :| 0 <= k < |ws| && at[k] <= 0 < at[k] + |ws[k]|;
  }

  /** A character before a run makes that run longer. */
  lemma LongerRun(s: string, sep: char -> bool, ws: seq<string>, at: seq<nat>)
    requires |s| > 1 && !sep(s[0]) && !sep(s[1]) && RunsOf(s[1..], sep, ws, at)
    ensures ws != [] && at[0] == 0
    ensures RunsOf(s, sep, [[s[0]] + ws[0]] + ws[1..], [0] + Shifted(at)[1..])
  {
    assert s[1..][0] == s[1];
    FirstRun(s[1..], sep, ws, at);
    LongerRunIsRun(s, sep, ws, at);
    LongerRunIsFirst([s[0]], ws, at);
    LongerRunCovers(s, sep, ws, at);
  }

  lemma LongerRunIsRun(s: string, sep: char -> bool, ws: seq<string>, at: seq<nat>)
    requires s != "" && !sep(s[0]) && |at| == |ws| && AllRuns(s[1..], sep, ws, at) && InOrder(ws, at)
    requires ws != [] && at[0] == 0
    ensures AllRuns(s, sep, [[s[0]] + ws[0]] + ws[1..], [0] + Shifted(at)[1..])
  {
    var ws', at' := [[s[0]] + ws[0]] + ws[1..], [0] + Shifted(at)[1..];
    LongerFirst(s, sep, ws[0]);
    forall i | 0 <= i < |ws'| ensures RunAt(s, sep, ws'[i], at'[i]) {
      if i > 0 {
        assert ws'[i] == ws[i] && at'[i] == at[i] + 1 && at[0] + |ws[0]| < at[i];
        ShiftRun(s, sep, ws[i], at[i]);
      }
    }
  }

  lemma LongerRunIsFirst(c: string, ws: seq<string>, at: seq<nat>)
    requires |c| == 1 && |at| == |ws| && InOrder(ws, at) && ws != [] && at[0] == 0
    ensures InOrder([c + ws[0]] + ws[1..], [0] + Shifted(at)[1..])
  {
    var ws', at' := [c + ws[0]] + ws[1..], [0] + Shifted(at)[1..];
    forall i, j | 0 <= i < j < |ws'| ensures at'[i] + |ws'[i]| < at'[j] {
      assert at[i] + |ws[i]| < at[j] && at'[j] == at[j] + 1 && at'[i] + |ws'[i]| == at[i] + |ws[i]| + 1;
    }
  }

  lemma LongerRunCovers(s: string, sep: char -> bool, ws: seq<string>, at: seq<nat>)
    requires s != "" && |at| == |ws| && ws != [] && AllCovered(s[1..], sep, ws, at) && at[0] == 0
    ensures AllCovered(s, sep, [[s[0]] + ws[0]] + ws[1..], [0] + Shifted(at)[1..])
  {
    var ws', at' := [[s[0]] + ws[0]] + ws[1..], [0] + Shifted(at)[1..];
    forall p | 0 <= p < |s| && !sep(s[p]) ensures Covered(ws', at', p) {
      if p <= |ws[0]| {
        CoversFirst(ws', at', p);
      } else {
        assert s[1..][p - 1] == s[p] && Covered(ws, at, p - 1);
        var i :| 0 <= i < |ws| && at[i] <= p - 1 < at[i] + |ws[i]|;
        assert i > 0 && ws'[i] == ws[i] && at'[i] == at[i] + 1;
      }
    }
  }

  lemma LongerFirst(s: string, sep: char -> bool, w: string)
    requires s != "" && !sep(s[0]) && RunAt(s[1..], sep, w, 0)
    ensures RunAt(s, sep, [s[0]] + w, 0)
  {
    var t, w' := s[1..], [s[0]] + w;
    assert s == [s[0]] + t;
    assert s[..|w'|] == w';
    assert |w| < |t| ==> s[|w'|] == t[|w|];
    forall i | 0 <= i < |w'| ensures !sep(w'[i]) {
      if i > 0 { assert w'[i] == w[i - 1]; }
    }
  }

  lemma FirstPiece(s: string, sep: char -> bool)
    ensures Split(s, sep)[0] == "" <==> s == "" || sep(s[0])
  {
  }

  lemma FieldsOf(s: string, sep: char -> bool)
    requires s != ""
    ensures sep(s[0]) ==> Fields(s, sep) == Fields(s[1..], sep)
    ensures !sep(s[0]) && (|s| == 1 || sep(s[1])) ==> Fields(s, sep) == [[s[0]]] + Fields(s[1..], sep)
    ensures !sep(s[0]) && |s| > 1 && !sep(s[1]) ==>
              var rest := Fields(s[1..], sep); rest != [] && Fields(s, sep) == [[s[0]] + rest[0]] + rest[1..]
  {
    var rest := Split(s[1..], sep);
    FirstPiece(s[1..], sep);
    assert |s| > 1 ==> s[1..][0] == s[1];
    assert rest == [rest[0]] + rest[1..];
    if sep(s[0]) {
      assert ([""] + rest)[1..] == rest;
    } else {
      var pieces := [[s[0]] + rest[0]] + rest[1..];
      assert pieces[1..] == rest[1..] && [s[0]] + "" == [s[0]];
    }
  }

  lemma {:induction false} FieldsAreRuns(s: string, sep: char -> bool) returns (at: seq<nat>)
    ensures RunsOf(s, sep, Fields(s, sep), at)
  {
    if s == "" {
      at := [];
      assert Split(s, sep) == [""] && [""][1..] == [];
      assert Fields(s, sep) == [];
    } else {
      var rest := FieldsAreRuns(s[1..], sep);
      FieldsOf(s, sep);
      if sep(s[0]) {
        at := Shifted(rest);
        AfterSeparator(s, sep, Fields(s[1..], sep), rest);
      } else if |s| == 1 || sep(s[1]) {
        at := [0] + Shifted(rest);
        NewRun(s, sep, Fields(s[1..], sep), rest);
      } else {
        LongerRun(s, sep, Fields(s[1..], sep), rest);
        at := [0] + Shifted(rest)[1..];
      }
    }
  }

  /** `split_whitespace` gives exactly the maximal runs without whitespace, in order, wherever the whitespace is. */
  lemma SplitWhitespaceRuns(s: string) returns (at: seq<nat>)
    ensures RunsOf(s, IsWhitespace, SplitWhitespace(s), at)
  {
    at := FieldsAreRuns(s, IsWhitespace);
  }

  // ---------------------------------------------------------------------------------------------
  // Trimming

  function TrimStart(s: string): string {
    if s != "" && IsWhitespace(s[0]) then TrimStart(s[1..]) else s
  }

  function TrimEnd(s: string): string {
    if s != "" && IsWhitespace(s[|s| - 1]) then TrimEnd(s[..|s| - 1]) else s
  }

  function Trim(s: string): string {
    TrimEnd(TrimStart(s))
  }

  ghost predicate Blank(s: string) {
    forall i :: 0 <= i < |s| ==> IsWhitespace(s[i])
  }

  lemma {:induction false} TrimStartTakes(s: string) returns (pre: string)
    ensures s == pre + TrimStart(s) && Blank(pre) && (TrimStart(s) != "" ==> !IsWhitespace(TrimStart(s)[0]))
  {
    if s == "" || !IsWhitespace(s[0]) {
      pre := "";
    } else {
      var rest := TrimStartTakes(s[1..]);
      pre := [s[0]] + rest;
      assert s == [s[0]] + s[1..];
    }
  }

  lemma {:induction false} TrimEndTakes(s: string) returns (post: string)
    ensures s == TrimEnd(s) + post && Blank(post) && TrimEnd(s) <= s
    ensures TrimEnd(s) != "" ==> !IsWhitespace(TrimEnd(s)[|TrimEnd(s)| - 1])
  {
    if s == "" || !IsWhitespace(s[|s| - 1]) {
      post := "";
    } else {
      var rest := TrimEndTakes(s[..|s| - 1]);
      post := rest + [s[|s| - 1]];
      assert s == s[..|s| - 1] + [s[|s| - 1]];
    }
  }

  /** `trim` takes away whitespace at both ends, all of it and nothing else. */
  lemma TrimTakes(s: string) returns (pre: string, post: string)
    ensures s == pre + Trim(s) + post && Blank(pre) && Blank(post)
    ensures var r := Trim(s); r != "" ==> !IsWhitespace(r[0]) && !IsWhitespace(r[|r| - 1])
  {
    pre := TrimStartTakes(s);
    post := TrimEndTakes(TrimStart(s));
    assert Trim(s) == TrimEnd(TrimStart(s));
  }

  // ---------------------------------------------------------------------------------------------
  // Words and their indices

  /** The index of a word in the list. */
  function Lookup(list: seq<string>, w: string): (r: Option<nat>)
    ensures r.Some? ==> r.value < |list| && list[r.value] == w
    ensures r.None? ==> w !in list
  {
    if list == [] then None
    else if list[|list| - 1] == w then Some(|list| - 1)
    else Lookup(list[..|list| - 1], w)
  }

  /** The lookup table both decoders build from the list. */
  method BuildLookup(list: seq<string>) returns (lookup: map<string, nat>)
    requires NoDuplicates(list)
    ensures forall w :: w in lookup <==> w in list
    ensures forall w :: w in lookup ==> lookup[w] < |list| && list[lookup[w]] == w
  {
    lookup := map[];
    for i := 0 to |list|
      invariant forall w :: w in lookup <==> w in list[..i]
      invariant forall w :: w in lookup ==> lookup[w] < i && list[lookup[w]] == w
    {
      lookup := lookup[list[i] := i];
      assert list[..i + 1] == list[..i] + [list[i]];
    }
    assert list[..|list|] == list;
  }

  ghost predicate InRange(idx: seq<nat>, list: seq<string>) {
    forall i :: 0 <= i < |idx| ==> idx[i] < |list|
  }

  function WordsAt(list: seq<string>, idx: seq<nat>): (ws: seq<string>)
    requires InRange(idx, list)
    ensures |ws| == |idx|
  {
    seq(|idx|, i requires 0 <= i < |idx| => list[idx[i]])
  }

  /** The indices of all the words, or the first word that is not in the list. */
  function Indices(list: seq<string>, ws: seq<string>): (r: Result<seq<nat>, string>)
    ensures r.Ok? ==> |r.value| == |ws| && InRange(r.value, list)
  {
    if ws == [] then Ok([])
    else
      match Indices(list, ws[..|ws| - 1])
      case Err(w) => Err(w)
      case Ok(idx) =>
        match Lookup(list, ws[|ws| - 1])
        case None => Err(ws[|ws| - 1])
        case Some(i) => Ok(idx + [i])
  }

  /** Decoding fails at the first unknown word, and only then. */
  lemma {:induction false} IndicesFailIff(list: seq<string>, ws: seq<string>)
    ensures Indices(list, ws).Ok? <==> forall i :: 0 <= i < |ws| ==> ws[i] in list
    ensures Indices(list, ws).Err? ==>
              exists i :: 0 <= i < |ws| && ws[i] == Indices(list, ws).error && ws[i] !in list
                          && forall j :: 0 <= j < i ==> ws[j] in list
  {
    if ws == [] {
    } else {
      var front := ws[..|ws| - 1];
      IndicesFailIff(list, front);
      if Indices(list, front).Err? {
        var i :| 0 <= i < |front| && front[i] == Indices(list, front).error && front[i] !in list
                 && forall j :: 0 <= j < i ==> front[j] in list;
        assert ws[i] == front[i] && forall j :: 0 <= j < i ==> ws[j] == front[j];
      } else {
        assert forall i :: 0 <= i < |front| ==> ws[i] == front[i];
      }
    }
  }

  lemma FirstUnknown(list: seq<string>, words: seq<string>, i: nat)
    requires i < |words| && words[i] !in list && Indices(list, words[..i]).Ok?
    ensures Indices(list, words) == Err(words[i])
  {
    IndicesFailIff(list, words);
    IndicesFailIff(list, words[..i]);
    forall j | 0 <= j < i ensures words[j] in list {
      assert words[..i][j] in list;
    }
  }

  lemma {:induction false} WordsOfIndices(list: seq<string>, ws: seq<string>)
    requires Indices(list, ws).Ok?
    ensures WordsAt(list, Indices(list, ws).value) == ws
  {
    if ws == [] {
    } else {
      WordsOfIndices(list, ws[..|ws| - 1]);
    }
  }

  lemma LookupFinds(list: seq<string>, i: nat)
    requires NoDuplicates(list) && i < |list|
    ensures Lookup(list, list[i]) == Some(i)
  {
  }

  /** One more word of the list. */
  lemma {:induction false} NextIndex(list: seq<string>, words: seq<string>, k: nat, idx: seq<nat>, i: nat)
    requires NoDuplicates(list) && k < |words| && Indices(list, words[..k]) == Ok(idx)
    requires i < |list| && list[i] == words[k]
    ensures Indices(list, words[..k + 1]) == Ok(idx + [i])
  {
    var ws := words[..k + 1];
    LookupFinds(list, i);
    assert ws[..|ws| - 1] == words[..k] && ws[|ws| - 1] == words[k];
  }

  lemma {:induction false} IndicesOfWords(list: seq<string>, idx: seq<nat>)
    requires NoDuplicates(list) && InRange(idx, list)
    ensures Indices(list, WordsAt(list, idx)) == Ok(idx)
  {
    if idx == [] {
    } else {
      var front, ws := idx[..|idx| - 1], WordsAt(list, idx);
      IndicesOfWords(list, front);
      assert ws[..|ws| - 1] == WordsAt(list, front);
      LookupFinds(list, idx[|idx| - 1]);
      assert idx == front + [idx[|idx| - 1]];
    }
  }

  /** No word contains a separator. */
  lemma WordsAreFree(list: seq<string>, idx: seq<nat>)
    requires WordList(list) && InRange(idx, list)
    ensures forall i :: 0 <= i < |idx| ==>
              var w := WordsAt(list, idx)[i]; w != "" && Free(w, IsWhitespace) && Free(w, IsDash)
  {
    forall i | 0 <= i < |idx|
      ensures var w := WordsAt(list, idx)[i]; w != "" && Free(w, IsWhitespace) && Free(w, IsDash)
    {
      assert IsWord(list[idx[i]]);
    }
  }

  /** Indices of words are what the printers started from. */
  lemma IndicesInjective(list: seq<string>, a: seq<nat>, b: seq<nat>)
    requires NoDuplicates(list) && InRange(a, list) && InRange(b, list) && WordsAt(list, a) == WordsAt(list, b)
    ensures a == b
  {
    IndicesOfWords(list, a);
    IndicesOfWords(list, b);
  }
}
