/** The command line word splitter. A string is the characters before its terminating NUL. */
module Tokenizer {
  import opened Bytes

  const NUL: char := '\0'

  predicate CString(s: string) {
    forall i :: 0 <= i < |s| ==> s[i] != NUL
  }

  /** What is read at position `i`: the terminator comes after the last character. */
  function CharAt(s: string, i: nat): char
    requires i <= |s|
  {
    if i < |s| then s[i] else NUL
  }

  // ---- What a word is ----

  function SkipSpaces(s: string): string {
    if s != [] && s[0] == ' ' then SkipSpaces(s[1..]) else s
  }

  /** The longest prefix without spaces of at most `n` characters. */
  function Prefix(s: string, n: nat): (p: string)
    ensures p <= s && |p| <= n && ' ' !in p
    ensures |p| == n || |p| == |s| || s[|p|] == ' '
  {
    if n == 0 || s == [] || s[0] == ' ' then [] else [s[0]] + Prefix(s[1..], n - 1)
  }

  datatype Split = Split(word: string, rest: string)

  /** The first word of a non-empty string for a buffer of `size` characters, and what follows it. */
  function FirstWord(s: string, size: nat): Split
    requires size >= 1
  {
    var t := if size == 1 then s else SkipSpaces(s);
    var w := Prefix(t, size - 1);
    Split(w, t[|w|..])
  }

  // ---- The loop ----

  /** What the loop will have found when it stops, `w` being the word so far and `idx` the next character. */
  function Remaining(s: string, idx: nat, w: string, started: bool, size: nat): Split
    requires idx <= |s| && |w| < size
  {
    if started then
      var p := Prefix(s[idx..], size - 1 - |w|);
      Split(w + p, s[idx..][|p|..])
    else FirstWord(s[idx..], size)
  }

  lemma SkipOne(s: string, idx: nat, size: nat)
    requires idx < |s| && s[idx] == ' ' && size > 1
    ensures Remaining(s, idx, [], false, size) == Remaining(s, idx + 1, [], false, size)
  {
    assert s[idx..][1..] == s[idx + 1..];
  }

  lemma PrefixStep(t: string, n: nat)
    requires t != [] && t[0] != ' ' && n > 0
    ensures Prefix(t, n) == [t[0]] + Prefix(t[1..], n - 1)
  {
  }

  lemma TakeMore(s: string, idx: nat, w: string, size: nat)
    requires idx < |s| && s[idx] != ' ' && |w| + 1 < size
    ensures Remaining(s, idx, w, true, size) == Remaining(s, idx + 1, w + [s[idx]], true, size)
  {
    hide Prefix;
    var n := size - 1 - |w|;
    var t, u := s[idx..], s[idx + 1..];
    var p := Prefix(u, n - 1);
    assert t[1..] == u;
    PrefixStep(t, n);
    assert w + ([s[idx]] + p) == (w + [s[idx]]) + p;
    assert t[1 + |p|..] == u[|p|..];
  }

  lemma TakeOne(s: string, idx: nat, w: string, started: bool, size: nat)
    requires idx < |s| && s[idx] != ' ' && |w| + 1 < size && (!started ==> w == [])
    ensures Remaining(s, idx, w, started, size) == Remaining(s, idx + 1, w + [s[idx]], true, size)
  {
    hide Prefix;
    TakeMore(s, idx, w, size);
    if !started {
      assert SkipSpaces(s[idx..]) == s[idx..];
      assert [] + Prefix(s[idx..], size - 1) == Prefix(s[idx..], size - 1);
    }
  }

  lemma StopHere(s: string, idx: nat, w: string, started: bool, size: nat)
    requires idx <= |s| && |w| < size && (!started ==> w == [])
    requires idx == |s| || |w| == size - 1 || (started && s[idx] == ' ')
    ensures Remaining(s, idx, w, started, size) == Split(w, s[idx..])
  {
    if started {
      assert Prefix(s[idx..], size - 1 - |w|) == [];
      assert w + [] == w;
    }
  }

  /** `tokenizer_next_word`: `None` if there are no more words. */
  method NextWord(word: array<char>, src: string, size: nat) returns (rest: Option<string>)
    requires CString(src) && 1 <= size <= word.Length
    modifies word
    ensures word[size..] == old(word[size..])
    ensures src == [] ==> rest == None && word[..] == old(word[..])
    ensures src != [] ==>
      var f := FirstWord(src, size);
      rest == Some(f.rest) && |f.word| < size && word[..|f.word|] == f.word && word[|f.word|] == NUL
  {
    hide FirstWord, Remaining, Prefix;
    if src == [] {
      return None;
    }
    var started := false;
    var idx, len := 0, 0;
    ghost var w: string := [];
    assert src[0..] == src;
    assert Remaining(src, 0, [], false, size) == FirstWord(src, size) by { RemainingAtStart(src, size); }
    while len < size - 1
      invariant len == |w| <= size - 1 && idx <= |src| && word[..len] == w && (!started ==> w == [])
      invariant word[size..] == old(word[size..])
      invariant Remaining(src, idx, w, started, size) == FirstWord(src, size)
      decreases |src| - idx
    {
      var c := CharAt(src, idx);
      if c == ' ' {
        if started {
          break;
        }
        SkipOne(src, idx, size);
        idx := idx + 1;
        continue;
      }
      word[len] := c;
      len := len + 1;
      if c == NUL {
        break;
      }
      TakeOne(src, idx, w, started, size);
      started := true;
      w := w + [c];
      idx := idx + 1;
    }
    StopHere(src, idx, w, started, size);
    word[len] := NUL;
    rest := Some(src[idx..]);
  }

  lemma RemainingAtStart(s: string, size: nat)
    requires size >= 1
    ensures Remaining(s, 0, [], false, size) == FirstWord(s, size)
  {
    assert s[0..] == s;
  }

  // ---- Iteration by callers ----

  lemma {:induction false} SkipShortens(s: string)
    ensures |SkipSpaces(s)| <= |s| && (s != [] && s[0] == ' ' ==> |SkipSpaces(s)| < |s|)
    ensures SkipSpaces(s) != [] ==> SkipSpaces(s)[0] != ' '
  {
    if s != [] && s[0] == ' ' {
      SkipShortens(s[1..]);
    }
  }

  /** With room for at least one character every call gets nearer to the end of the string. */
  lemma Progress(s: string, size: nat)
    requires s != [] && size >= 2
    ensures |FirstWord(s, size).rest| < |s|
  {
    SkipShortens(s);
  }

  /** Without it no call ever does: the loop of a caller would not end. */
  lemma NoProgress(s: string)
    ensures FirstWord(s, 1) == Split([], s)
  {
  }

  /** The words a caller gets by calling until there are no more. */
  function Words(s: string, size: nat): seq<string>
    requires size >= 2
    decreases |s|
  {
    if s == [] then []
    else
      Progress(s, size);
      var f := FirstWord(s, size);
      [f.word] + Words(f.rest, size)
  }

  function RemoveSpaces(s: string): string {
    if s == [] then [] else (if s[0] == ' ' then [] else [s[0]]) + RemoveSpaces(s[1..])
  }

  lemma {:induction false} RemoveConcat(a: string, b: string)
    ensures RemoveSpaces(a + b) == RemoveSpaces(a) + RemoveSpaces(b)
  {
    if a == [] {
      assert a + b == b;
    } else {
      assert (a + b)[1..] == a[1..] + b;
      RemoveConcat(a[1..], b);
    }
  }

  lemma {:induction false} RemoveNothing(s: string)
    requires ' ' !in s
    ensures RemoveSpaces(s) == s
  {
    if s != [] {
      RemoveNothing(s[1..]);
    }
  }

  lemma {:induction false} SkipRemoves(s: string)
    ensures RemoveSpaces(SkipSpaces(s)) == RemoveSpaces(s)
  {
    if s != [] && s[0] == ' ' {
      SkipRemoves(s[1..]);
    }
  }

  /** The words together are the string without its spaces: no character is lost, added or moved. */
  lemma {:induction false} WordsConserve(s: string, size: nat)
    requires size >= 2
    ensures Concat(Words(s, size)) == RemoveSpaces(s)
    decreases |s|
  {
    if s != [] {
      Progress(s, size);
      var f := FirstWord(s, size);
      WordsConserve(f.rest, size);
      SkipRemoves(s);
      assert SkipSpaces(s) == f.word + f.rest;
      RemoveConcat(f.word, f.rest);
      RemoveNothing(f.word);
      assert Words(s, size)[1..] == Words(f.rest, size);
    }
  }

  /** Every word fits the buffer and holds no space. */
  lemma {:induction false} WordsFit(s: string, size: nat)
    requires size >= 2
    ensures forall i :: 0 <= i < |Words(s, size)| ==> |Words(s, size)[i]| < size && ' ' !in Words(s, size)[i]
    decreases |s|
  {
    if s != [] {
      Progress(s, size);
      WordsFit(FirstWord(s, size).rest, size);
    }
  }

  function Last<T>(s: seq<T>): T
    requires s != []
  {
    s[|s| - 1]
  }

  /** Only the last word can be empty, exactly when the string ends with a space. */
  lemma {:induction false} OnlyLastEmpty(s: string, size: nat)
    requires size >= 2 && s != []
    ensures var ws := Words(s, size);
      && ws != [] && (Last(ws) == [] <==> Last(s) == ' ')
      && (forall i :: 0 <= i < |ws| - 1 ==> ws[i] != [])
    decreases |s|
  {
    hide FirstWord;
    Progress(s, size);
    LastChar(s, size);
    var f := FirstWord(s, size);
    if f.rest == [] {
      assert Words(s, size) == [f.word];
    } else {
      OnlyLastEmpty(f.rest, size);
    }
  }

  lemma {:induction false} SkipSuffix(s: string)
    ensures SkipSpaces(s) != [] ==> SkipSpaces(s)[|SkipSpaces(s)| - 1] == s[|s| - 1]
    ensures SkipSpaces(s) == [] && s != [] ==> s[|s| - 1] == ' '
  {
    if s != [] && s[0] == ' ' {
      SkipSuffix(s[1..]);
    }
  }

  lemma LastChar(s: string, size: nat)
    requires s != [] && size >= 2
    ensures var f := FirstWord(s, size);
      && (f.word == [] ==> f.rest == [] && Last(s) == ' ')
      && (f.rest != [] ==> Last(f.rest) == Last(s))
      && (f.rest == [] && f.word != [] ==> Last(s) != ' ')
  {
    var t := SkipSpaces(s);
    var f := FirstWord(s, size);
    SkipSuffix(s);
    SkipShortens(s);
    assert t == f.word + f.rest;
    if f.rest == [] && f.word != [] {
      assert t == f.word;
      assert t[|t| - 1] in f.word;
    }
  }

  // ---- Words joined by single spaces come back ----

  function Join(ws: seq<string>): string {
    if ws == [] then [] else if |ws| == 1 then ws[0] else ws[0] + [' '] + Join(ws[1..])
  }

  predicate Proper(w: string, size: nat) {
    w != [] && |w| < size && ' ' !in w
  }

  lemma {:induction false} PrefixOfWord(w: string, tail: string, n: nat)
    requires ' ' !in w && |w| <= n && (tail == [] || tail[0] == ' ')
    ensures Prefix(w + tail, n) == w
  {
    if w == [] {
      assert w + tail == tail;
    } else {
      assert (w + tail)[1..] == w[1..] + tail;
      PrefixOfWord(w[1..], tail, n - 1);
    }
  }

  lemma FirstOfJoin(lead: string, w: string, tail: string, size: nat)
    requires Proper(w, size) && (tail == [] || tail[0] == ' ') && (lead == [] || lead == [' '])
    ensures size >= 2 && FirstWord(lead + w + tail, size) == Split(w, tail)
  {
    var s := lead + w + tail;
    if lead == [' '] {
      assert s[1..] == w + tail;
    } else {
      assert s == w + tail;
    }
    assert (w + tail)[0] == w[0] != ' ';
    assert SkipSpaces(s) == w + tail;
    PrefixOfWord(w, tail, size - 1);
  }

  lemma {:induction false} JoinedWordsReturn(ws: seq<string>, size: nat, lead: string)
    requires size >= 2 && (forall i :: 0 <= i < |ws| ==> Proper(ws[i], size))
    requires lead == [] || (lead == [' '] && ws != [])
    ensures Words(lead + Join(ws), size) == ws
    decreases |ws|
  {
    hide FirstWord;
    if ws == [] {
      assert lead + Join(ws) == [];
    } else {
      var tail := if |ws| == 1 then [] else [' '] + Join(ws[1..]);
      assert lead + Join(ws) == lead + ws[0] + tail;
      FirstOfJoin(lead, ws[0], tail, size);
      OneMoreWord(lead + Join(ws), ws[0], tail, size);
      if |ws| > 1 {
        JoinedWordsReturn(ws[1..], size, [' ']);
      } else {
        assert Words(tail, size) == [];
      }
    }
  }

  lemma OneMoreWord(s: string, w: string, rest: string, size: nat)
    requires size >= 2 && s != [] && FirstWord(s, size) == Split(w, rest)
    ensures Words(s, size) == [w] + Words(rest, size)
  {
    Progress(s, size);
  }

  /** Tokenizing the single-space join of proper words gives back those words. */
  lemma JoinRoundTrip(ws: seq<string>, size: nat)
    requires size >= 2 && forall i :: 0 <= i < |ws| ==> Proper(ws[i], size)
    ensures Words(Join(ws), size) == ws
  {
    JoinedWordsReturn(ws, size, []);
    assert [] + Join(ws) == Join(ws);
  }
}
