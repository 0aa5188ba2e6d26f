/** The parts of Go's `strings`, `fmt` and `bufio` packages that the file backend relies on. */
module Text {
  import opened Wrappers
  import opened SeqFacts

  /** `unicode.IsSpace`: the characters `strings.TrimSpace` removes. */
  predicate IsSpace(c: char) {
    || c == ' ' || c == '\t' || c == '\n' || c == '\r' || c == '\U{0B}' || c == '\U{0C}'
    || c == '\U{85}' || c == '\U{A0}' || c == '\U{1680}'
    || ('\U{2000}' <= c <= '\U{200A}')
    || c == '\U{2028}' || c == '\U{2029}' || c == '\U{202F}' || c == '\U{205F}' || c == '\U{3000}'
  }

  predicate AllSpace(s: string) {
    forall i :: 0 <= i < |s| ==> IsSpace(s[i])
  }

  /** Text with no white space at either end, which is what `strings.TrimSpace` returns. */
  predicate Trimmed(s: string) {
    s == [] || (!IsSpace(s[0]) && !IsSpace(s[|s| - 1]))
  }

  /** Drops leading white space: the result is the suffix of `s` after its white-space prefix. */
  function TrimLeft(s: string): (r: string)
    ensures |r| <= |s|
    ensures r == [] || !IsSpace(r[0])
  {
    if s != [] && IsSpace(s[0]) then TrimLeft(s[1..]) else s
  }

  lemma {:induction false} TrimLeftSuffix(s: string)
    ensures TrimLeft(s) == s[|s| - |TrimLeft(s)|..]
    ensures AllSpace(s[..|s| - |TrimLeft(s)|])
  {
    if s != [] && IsSpace(s[0]) {
      TrimLeftSuffix(s[1..]);
    }
  }

  /** Drops trailing white space: the result is the prefix of `s` before its white-space suffix. */
  function TrimRight(s: string): (r: string)
    ensures |r| <= |s|
    ensures r == [] || !IsSpace(r[|r| - 1])
    ensures r != [] ==> r[0] == s[0]
  {
    if s != [] && IsSpace(s[|s| - 1]) then TrimRight(s[..|s| - 1]) else s
  }

  lemma {:induction false} TrimRightPrefix(s: string)
    ensures TrimRight(s) == s[..|TrimRight(s)|]
    ensures AllSpace(s[|TrimRight(s)|..])
  {
    if s != [] && IsSpace(s[|s| - 1]) {
      TrimRightPrefix(s[..|s| - 1]);
    }
  }

  /** `strings.TrimSpace`. */
  function TrimSpace(s: string): (r: string)
    ensures Trimmed(r)
    ensures Trimmed(s) ==> r == s
  {
    TrimRight(TrimLeft(s))
  }

  lemma TrimLeftNoSpaceFirst(s: string)
    requires s == [] || !IsSpace(s[0])
    ensures TrimLeft(s) == s
  {
  }

  lemma {:induction false} TrimLeftAllSpace(s: string)
    requires AllSpace(s)
    ensures TrimLeft(s) == []
  {
    if s != [] {
      TrimLeftAllSpace(s[1..]);
    }
  }

  /** Trimming the front of a concatenation either consumes all of `a` or stops inside it. */
  lemma {:induction false} TrimLeftAppend(a: string, b: string)
    ensures TrimLeft(a + b) == if TrimLeft(a) == [] then TrimLeft(b) else TrimLeft(a) + b
  {
    if a == [] {
      assert a + b == b;
    } else if IsSpace(a[0]) {
      assert (a + b)[1..] == a[1..] + b;
      TrimLeftAppend(a[1..], b);
    }
  }

  /** Trimming the back of a concatenation either consumes all of `b` or stops inside it. */
  lemma {:induction false} TrimRightAppend(a: string, b: string)
    ensures TrimRight(a + b) == if TrimRight(b) == [] then TrimRight(a) else a + TrimRight(b)
  {
    if b == [] {
      assert a + b == a;
    } else if IsSpace(b[|b| - 1]) {
      assert (a + b)[..|a + b| - 1] == a + b[..|b| - 1];
      TrimRightAppend(a, b[..|b| - 1]);
    }
  }

  lemma {:induction false} TrimRightAllSpace(s: string)
    requires AllSpace(s)
    ensures TrimRight(s) == []
  {
    if s != [] {
      TrimRightAllSpace(s[..|s| - 1]);
    }
  }

  lemma TrimRightNoSpaceLast(s: string)
    requires s == [] || !IsSpace(s[|s| - 1])
    ensures TrimRight(s) == s
  {
  }

  /** White space around trimmed text is exactly what `TrimSpace` removes. */
  lemma TrimSpacePadded(front: string, x: string, back: string)
    requires AllSpace(front) && AllSpace(back) && Trimmed(x)
    ensures TrimSpace(front + x + back) == x
  {
    var xb := x + back;
    assert front + x + back == front + xb;
    TrimLeftAllSpace(front);
    TrimLeftAppend(front, xb);
    if x == [] {
      assert xb == back;
      TrimLeftAllSpace(back);
    } else {
      assert xb[0] == x[0];
      TrimLeftNoSpaceFirst(xb);
      TrimRightAllSpace(back);
      TrimRightAppend(x, back);
      TrimRightNoSpaceLast(x);
    }
  }

  /** `TrimSpace` removes characters only, so it cannot introduce one. */
  lemma TrimSpaceSubstring(s: string, c: char)
    requires c !in s
    ensures c !in TrimSpace(s)
  {
    TrimLeftSuffix(s);
    TrimRightPrefix(TrimLeft(s));
  }

  lemma TrimLeftBeforeColon(p: string, q: string)
    ensures TrimLeft(p + (":" + q)) == TrimLeft(p) + (":" + q)
  {
    var cq := ":" + q;
    TrimLeftAppend(p, cq);
    TrimLeftNoSpaceFirst(cq);
    if TrimLeft(p) == [] {
      assert TrimLeft(p) + cq == cq;
    }
  }

  lemma TrimRightAfterColon(l: string, q: string)
    ensures TrimRight((l + ":") + q) == (l + ":") + TrimRight(q)
  {
    TrimRightAppend(l + ":", q);
    TrimRightNoSpaceLast(l + ":");
  }

  /** `TrimSpace` of text holding a `:` keeps that `:` and trims only the outer ends of the two
      sides around it. */
  lemma TrimSpaceAroundColon(p: string, q: string)
    ensures TrimSpace(p + ":" + q) == TrimLeft(p) + ":" + TrimRight(q)
  {
    var l := TrimLeft(p);
    AppendAssoc(p, ":", q);
    TrimLeftBeforeColon(p, q);
    AppendAssoc(l, ":", q);
    TrimRightAfterColon(l, q);
    calc {
      TrimSpace(p + ":" + q);
      TrimRight(TrimLeft(p + (":" + q)));
      TrimRight(l + (":" + q));
      TrimRight((l + ":") + q);
    }
  }

  /** `strings.Index` for a one-character separator: the first position of `c`. */
  function IndexOf(s: string, c: char): (r: Option<nat>)
    ensures r.None? <==> c !in s
    ensures r.Some? ==> r.value < |s| && s[r.value] == c && c !in s[..r.value]
  {
    if s == [] then None
    else if s[0] == c then Some(0)
    else match IndexOf(s[1..], c) {
      case None => None
      case Some(i) =>
        assert s[..i + 1] == [s[0]] + s[1..][..i];
        Some(i + 1)
    }
  }

  /** The first occurrence is unique, so any position with no earlier `c` is the one found. */
  lemma IndexOfAt(s: string, c: char, k: nat)
    requires k < |s| && s[k] == c && c !in s[..k]
    ensures IndexOf(s, c) == Some(k)
  {
  }

  /** Joining a colon-free `l` to `r` with a colon puts the first colon right after `l`. */
  lemma ColonSplit(l: string, r: string)
    requires ':' !in l
    ensures var s := l + ":" + r;
      && IndexOf(s, ':') == Some(|l|) && s[..|l|] == l && s[|l| + 1..] == r
  {
    var s := l + ":" + r;
    assert s[..|l|] == l;
    IndexOfAt(s, ':', |l|);
    assert s[|l| + 1..] == r;
  }

  /** `sub` occurs in `s` starting at position `i`. */
  predicate OccursAt(sub: string, s: string, i: int) {
    0 <= i && i + |sub| <= |s| && s[i..i + |sub|] == sub
  }

  /** `strings.Contains`: whether `sub` occurs somewhere in `s`. */
  function Contains(s: string, sub: string): (r: bool)
    ensures r <==> exists i :: OccursAt(sub, s, i)
    decreases |s|
  {
    if |sub| > |s| then false
    else if s[..|sub|] == sub then assert OccursAt(sub, s, 0); true
    else
      var r := Contains(s[1..], sub);
      OccursShift(sub, s);
      r
  }

  lemma OccursShift(sub: string, s: string)
    requires |s| > 0 && !OccursAt(sub, s, 0)
    ensures (exists i :: OccursAt(sub, s, i)) <==> (exists j :: OccursAt(sub, s[1..], j))
  {
    forall j | OccursAt(sub, s[1..], j) ensures OccursAt(sub, s, j + 1) {
      assert s[1..][j..j + |sub|] == s[j + 1..j + 1 + |sub|];
    }
    forall i | OccursAt(sub, s, i) ensures OccursAt(sub, s[1..], i - 1) {
      assert s[1..][i - 1..i - 1 + |sub|] == s[i..i + |sub|];
    }
  }

  function Spaces(n: nat): (r: string)
    ensures |r| == n && AllSpace(r)
    ensures forall i :: 0 <= i < n ==> r[i] == ' '
  {
    if n == 0 then "" else Spaces(n - 1) + " "
  }

  /** `fmt`'s `%-<width>s`: left-justified, padded with spaces on the right, never truncated. */
  function PadRight(s: string, width: nat): (r: string)
    ensures |r| == if |s| < width then width else |s|
    ensures r[..|s|] == s
    ensures forall i :: |s| <= i < |r| ==> r[i] == ' '
  {
    if |s| < width then s + Spaces(width - |s|) else s
  }

  /** `bufio.ScanLines` strips one carriage return before the line break. */
  function DropCR(s: string): (r: string)
    ensures |r| <= |s| && r == s[..|r|]
    ensures |s| - 1 <= |r|
    ensures |r| < |s| <==> s != [] && s[|s| - 1] == '\r'
  {
    if s != [] && s[|s| - 1] == '\r' then s[..|s| - 1] else s
  }

  /** The tokens a `bufio.Scanner` with `ScanLines` yields for `text`: one per line break, plus a
      final unterminated line when there is one, each without its `\n` and trailing `\r`. */
  function Lines(text: string): (r: seq<string>)
    ensures forall i :: 0 <= i < |r| ==> '\n' !in r[i]
    decreases |text|
  {
    if text == [] then []
    else match IndexOf(text, '\n') {
      case None => [DropCR(text)]
      case Some(i) =>
        var line := DropCR(text[..i]);
        assert line == text[..i][..|line|];
        [line] + Lines(text[i + 1..])
    }
  }

  /** Empty, or ending in a line break: the state of a file that only whole lines were added to. */
  predicate Terminated(text: string) {
    text == [] || text[|text| - 1] == '\n'
  }

  /** A line break ends a token, so a terminated prefix splits independently of what follows. */
  lemma {:induction false} LinesAppend(a: string, b: string)
    requires Terminated(a)
    ensures Lines(a + b) == Lines(a) + Lines(b)
    decreases |a|
  {
    if a == [] {
      assert a + b == b;
    } else {
      var i := IndexOf(a, '\n').value;
      IndexOfAt(a + b, '\n', i);
      assert (a + b)[..i] == a[..i];
      assert (a + b)[i + 1..] == a[i + 1..] + b;
      LinesAppend(a[i + 1..], b);
    }
  }

  /** A line and its break make exactly one token. */
  lemma LinesOfLine(l: string)
    requires '\n' !in l
    ensures Lines(l + "\n") == [DropCR(l)]
  {
    IndexOfAt(l + "\n", '\n', |l|);
    assert (l + "\n")[..|l|] == l;
    assert (l + "\n")[|l| + 1..] == [];
  }
}
