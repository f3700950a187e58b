/** Strings the way Python's `str.split`, `str.strip` and `str.join` see them, and the
    one fact everything else leans on: cutting a string at whitespace keeps its words. */
module Text {

  /** Python's `str.isspace`, which is also what `\s` matches. */
  predicate IsSpace(c: char) {
    var n := c as int;
    9 <= n <= 13 || 28 <= n <= 32 || n == 0x85 || n == 0xA0 || n == 0x1680
    || 0x2000 <= n <= 0x200A || n == 0x2028 || n == 0x2029 || n == 0x202F || n == 0x205F || n == 0x3000
  }

  predicate AllSpace(s: string) {
    forall i :: 0 <= i < |s| ==> IsSpace(s[i])
  }

  /** A word is a nonempty run without whitespace. */
  predicate IsWord(s: string) {
    s != "" && forall i :: 0 <= i < |s| ==> !IsSpace(s[i])
  }

  predicate AllWords(ws: seq<string>) {
    forall i :: 0 <= i < |ws| ==> IsWord(ws[i])
  }

  /** One more character in front of `rest`, joined to its first word or not. */
  function WordsPut(c: char, joins: bool, rest: seq<string>): (ws: seq<string>)
    requires joins ==> rest != []
  {
    if IsSpace(c) then rest
    else if joins then [[c] + rest[0]] + rest[1..]
    else [[c]] + rest
  }

  /** `s.split()`: the maximal whitespace-free runs of `s`, in order. */
  function Words(s: string): (ws: seq<string>)
    ensures AllWords(ws)
    ensures s != "" && !IsSpace(s[0]) ==> ws != []
  {
    if s == "" then [] else WordsPut(s[0], |s| > 1 && !IsSpace(s[1]), Words(s[1..]))
  }

  /** `sep.join(parts)` for a one-character separator. */
  function Join(parts: seq<string>, sep: char): string {
    if parts == [] then ""
    else if |parts| == 1 then parts[0]
    else parts[0] + [sep] + Join(parts[1..], sep)
  }

  predicate OneLine(s: string) { forall i :: 0 <= i < |s| ==> s[i] != '\n' }

  /** `s.split("\n")`. */
  function SplitLines(s: string): (lines: seq<string>)
    ensures lines != []
  {
    if s == "" then [""]
    else
      var rest := SplitLines(s[1..]);
      if s[0] == '\n' then [""] + rest else [[s[0]] + rest[0]] + rest[1..]
  }

  lemma {:induction false} SplitOneLine(s: string)
    requires OneLine(s)
    ensures SplitLines(s) == [s]
  {
    if s != "" {
      SplitOneLine(s[1..]);
      assert [s[0]] + s[1..] == s;
    }
  }

  lemma {:induction false} SplitFirst(a: string, b: string)
    requires OneLine(a)
    ensures SplitLines(a + "\n" + b) == [a] + SplitLines(b)
    decreases |a|
  {
    var s := a + "\n" + b;
    if a == "" {
      assert s[1..] == b;
    } else {
      SplitFirst(a[1..], b);
      assert s[1..] == a[1..] + "\n" + b;
      assert [a[0]] + a[1..] == a;
    }
  }

  /** Cutting at newlines undoes joining with them ... */
  lemma {:induction false} SplitJoins(parts: seq<string>)
    requires parts != [] && forall i :: 0 <= i < |parts| ==> OneLine(parts[i])
    ensures SplitLines(Join(parts, '\n')) == parts
    decreases |parts|
  {
    if |parts| == 1 {
      SplitOneLine(parts[0]);
    } else {
      SplitJoins(parts[1..]);
      SplitFirst(parts[0], Join(parts[1..], '\n'));
      assert Join(parts, '\n') == parts[0] + "\n" + Join(parts[1..], '\n');
    }
  }

  lemma JoinEmptyFirst(c: char, rest: seq<string>)
    requires rest != []
    ensures Join([""] + rest, c) == [c] + Join(rest, c)
  {
    assert ([""] + rest)[1..] == rest;
  }

  lemma JoinPut(c: char, sep: char, rest: seq<string>)
    requires rest != []
    ensures Join([[c] + rest[0]] + rest[1..], sep) == [c] + Join(rest, sep)
  {
    assert ([[c] + rest[0]] + rest[1..])[1..] == rest[1..];
  }

  /** ... and joining undoes cutting; no part holds a newline. */
  lemma {:induction false} JoinSplits(s: string)
    ensures Join(SplitLines(s), '\n') == s
    ensures forall i :: 0 <= i < |SplitLines(s)| ==> OneLine(SplitLines(s)[i])
  {
    if s != "" {
      JoinSplits(s[1..]);
      JoinEmptyFirst('\n', SplitLines(s[1..]));
      JoinPut(s[0], '\n', SplitLines(s[1..]));
      assert s == [s[0]] + s[1..];
    }
  }

  function Concat<T>(parts: seq<seq<T>>): seq<T> {
    if parts == [] then [] else parts[0] + Concat(parts[1..])
  }

  /** The words of a list of texts, one text after the other. */
  function WordsOfAll(parts: seq<string>): seq<string> {
    if parts == [] then [] else Words(parts[0]) + WordsOfAll(parts[1..])
  }

  function StripLeft(s: string): string {
    if s != "" && IsSpace(s[0]) then StripLeft(s[1..]) else s
  }

  function StripRight(s: string): string {
    if s != "" && IsSpace(s[|s| - 1]) then StripRight(s[..|s| - 1]) else s
  }

  /** `s.strip()`. */
  function Strip(s: string): string {
    StripRight(StripLeft(s))
  }

  lemma WordsPutBefore(c: char, joins: bool, left: seq<string>, right: seq<string>)
    requires joins ==> left != []
    ensures WordsPut(c, joins, left + right) == WordsPut(c, joins, left) + right
  {
    if joins { assert (left + right)[1..] == left[1..] + right; }
  }

  /** Cutting a string next to whitespace splits its words and loses none. */
  lemma {:induction false} WordsCut(a: string, b: string)
    requires a == "" || b == "" || IsSpace(a[|a| - 1]) || IsSpace(b[0])
    ensures Words(a + b) == Words(a) + Words(b)
  {
    if a == "" || b == "" {
      assert a + b == if a == "" then b else a;
      return;
    }
    WordsCut(a[1..], b);
    assert (a + b)[1..] == a[1..] + b;
    assert Words("") == [];
    WordsPutBefore(a[0], |a| > 1 && !IsSpace(a[1]), Words(a[1..]), Words(b));
  }

  lemma {:induction false} WordsOfSpace(s: string)
    requires AllSpace(s)
    ensures Words(s) == []
  {
    if s != "" {
      WordsOfSpace(s[1..]);
    }
  }

  /** Replacing a whitespace separator by a cut keeps the words on both sides. */
  lemma {:induction false} WordsAround(a: string, gap: string, b: string)
    requires gap != "" && AllSpace(gap)
    ensures Words(a + gap + b) == Words(a) + Words(b)
  {
    assert IsSpace(gap[0]) && IsSpace(gap[|gap| - 1]);
    WordsCut(gap, b);
    WordsOfSpace(gap);
    assert Words(gap + b) == Words(b);
    assert (gap + b)[0] == gap[0];
    WordsCut(a, gap + b);
    assert a + gap + b == a + (gap + b);
  }

  lemma {:induction false} WordsOfJoin(parts: seq<string>, sep: char)
    requires IsSpace(sep)
    ensures Words(Join(parts, sep)) == WordsOfAll(parts)
  {
    if |parts| > 1 {
      WordsOfJoin(parts[1..], sep);
      WordsAround(parts[0], [sep], Join(parts[1..], sep));
    } else if |parts| == 1 {
      assert WordsOfAll(parts[1..]) == [];
    }
  }

  lemma {:induction false} WordsOfWord(w: string)
    requires IsWord(w)
    ensures Words(w) == [w]
  {
    if |w| > 1 {
      WordsOfWord(w[1..]);
      assert [w[0]] + w[1..] == w;
    } else {
      assert w == [w[0]];
    }
  }

  lemma {:induction false} WordsOfAllWords(ws: seq<string>)
    requires AllWords(ws)
    ensures WordsOfAll(ws) == ws
  {
    if ws != [] {
      WordsOfWord(ws[0]);
      WordsOfAllWords(ws[1..]);
    }
  }

  /** `" ".join(ws).split() == ws` for real words: collapsing whitespace is lossless. */
  lemma WordsJoinRoundTrip(ws: seq<string>)
    requires AllWords(ws)
    ensures Words(Join(ws, ' ')) == ws
  {
    WordsOfJoin(ws, ' ');
    WordsOfAllWords(ws);
  }

  lemma WordsOfAllCons(head: string, tail: seq<string>)
    ensures WordsOfAll([head] + tail) == Words(head) + WordsOfAll(tail)
  {
    assert ([head] + tail)[1..] == tail;
  }

  lemma {:induction false} WordsOfAllAppend(a: seq<string>, b: seq<string>)
    ensures WordsOfAll(a + b) == WordsOfAll(a) + WordsOfAll(b)
  {
    if a == [] {
      assert a + b == b;
    } else {
      assert (a + b)[1..] == a[1..] + b;
      WordsOfAllAppend(a[1..], b);
    }
  }

  lemma {:induction false} WordsOfStripLeft(s: string)
    ensures Words(StripLeft(s)) == Words(s)
  {
    if s != "" && IsSpace(s[0]) {
      WordsOfStripLeft(s[1..]);
    }
  }

  lemma {:induction false} WordsOfStripRight(s: string)
    ensures Words(StripRight(s)) == Words(s)
  {
    if s != "" && IsSpace(s[|s| - 1]) {
      var n := |s| - 1;
      WordsOfStripRight(s[..n]);
      WordsCut(s[..n], s[n..]);
      WordsOfSpace(s[n..]);
      assert s == s[..n] + s[n..];
    }
  }

  lemma WordsOfStrip(s: string)
    ensures Words(Strip(s)) == Words(s)
  {
    WordsOfStripRight(StripLeft(s));
    WordsOfStripLeft(s);
  }

  lemma {:induction false} StripRightHead(s: string)
    requires s != "" && !IsSpace(s[0])
    ensures StripRight(s) != "" && StripRight(s)[0] == s[0]
  {
    if IsSpace(s[|s| - 1]) {
      StripRightHead(s[..|s| - 1]);
    }
  }

  /** `strip` leaves nothing exactly when there was no word. */
  lemma {:induction false} StripEmpty(s: string)
    ensures Strip(s) == "" <==> Words(s) == []
  {
    if s != "" {
      if IsSpace(s[0]) {
        StripEmpty(s[1..]);
      } else {
        StripRightHead(s);
      }
    }
  }

  lemma {:induction false} ConcatAppend<T>(a: seq<seq<T>>, b: seq<seq<T>>)
    ensures Concat(a + b) == Concat(a) + Concat(b)
  {
    if a == [] {
      assert a + b == b;
    } else {
      assert (a + b)[1..] == a[1..] + b;
      ConcatAppend(a[1..], b);
    }
  }

  lemma {:induction false} StripLeftIs(s: string) returns (pre: string)
    ensures s == pre + StripLeft(s) && AllSpace(pre) && (StripLeft(s) != "" ==> !IsSpace(StripLeft(s)[0]))
  {
    pre := "";
    if s != "" && IsSpace(s[0]) {
      pre := StripLeftIs(s[1..]);
      pre := [s[0]] + pre;
    }
  }

  lemma {:induction false} StripRightIs(s: string) returns (post: string)
    ensures s == StripRight(s) + post && AllSpace(post)
    ensures StripRight(s) != "" ==> !IsSpace(StripRight(s)[|StripRight(s)| - 1]) && StripRight(s)[0] == s[0]
  {
    post := "";
    if s != "" && IsSpace(s[|s| - 1]) {
      post := StripRightIs(s[..|s| - 1]);
      post := post + [s[|s| - 1]];
    }
  }

  /** Nothing but whitespace around, and none at the ends. */
  ghost predicate Stripped(s: string, text: string, pre: string, post: string) {
    && s == pre + text + post && AllSpace(pre) && AllSpace(post)
    && (text != "" ==> !IsSpace(text[0]) && !IsSpace(text[|text| - 1]))
  }

  /** `strip` takes the whitespace off both ends, and nothing else. */
  lemma StripIs(s: string) returns (pre: string, post: string)
    ensures Stripped(s, Strip(s), pre, post)
  {
    pre := StripLeftIs(s);
    post := StripRightIs(StripLeft(s));
  }

  lemma {:induction false} JoinAppend(a: seq<string>, b: seq<string>, sep: char)
    requires a != [] && b != []
    ensures Join(a + b, sep) == Join(a, sep) + [sep] + Join(b, sep)
  {
    if |a| == 1 {
      assert (a + b)[1..] == b;
    } else {
      JoinAppend(a[1..], b, sep);
      assert (a + b)[1..] == a[1..] + b;
    }
  }
}
