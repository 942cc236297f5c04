/** The pieces of Rust's `str` API the server relies on, written out:
    `find`, `split(char)`, `splitn(2, char)`, `lines()` and `split_whitespace()`. */
module Strings {
  import opened Wrappers

  /** Index of the first `c` in `s`, or `|s|` when there is none (`str::find`). */
  function IndexOf(s: string, c: char): (i: nat)
    ensures i <= |s|
    ensures i < |s| ==> s[i] == c
    ensures forall j :: 0 <= j < i ==> s[j] != c
    ensures i == |s| <==> c !in s
  {
    if s == [] then 0
    else if s[0] == c then 0
    else 1 + IndexOf(s[1..], c)
  }

  lemma IndexOfAfterPrefix(a: string, c: char, b: string)
    requires c !in a
    ensures IndexOf(a + [c] + b, c) == |a|
  {
    var s := a + [c] + b;
    assert s[|a|] == c;
    assert forall j :: 0 <= j < |a| ==> s[j] == a[j];
  }

  lemma TailAppend<T>(a: seq<T>, b: seq<T>)
    requires a != []
    ensures (a + b)[0] == a[0] && (a + b)[1..] == a[1..] + b
  {
  }

  /** The concatenation of a sequence of strings. */
  function Concat(parts: seq<string>): (s: string)
  {
    if parts == [] then "" else parts[0] + Concat(parts[1..])
  }

  lemma ConcatAppend(parts: seq<string>, last: string)
    ensures Concat(parts + [last]) == Concat(parts) + last
  {
    if parts != [] {
      assert (parts + [last])[1..] == parts[1..] + [last];
      ConcatAppend(parts[1..], last);
    }
  }

  // ---------------------------------------------------------------------------
  // split(char)

  /** `s.split(c)`: the pieces between consecutive occurrences of `c`. */
  function Split(s: string, c: char): (parts: seq<string>)
    ensures |parts| >= 1
    ensures forall k :: 0 <= k < |parts| ==> c !in parts[k]
    decreases |s|
  {
    var i := IndexOf(s, c);
    if i == |s| then
      assert c !in s;
      [s]
    else
      assert c !in s[..i];
      [s[..i]] + Split(s[i + 1..], c)
  }

  /** Text without `c` is one piece. */
  lemma SplitNone(s: string, c: char)
    requires c !in s
    ensures Split(s, c) == [s]
  {
  }

  /** The first piece ends at the first `c`. */
  lemma SplitAfter(a: string, c: char, b: string)
    requires c !in a
    ensures Split(a + [c] + b, c) == [a] + Split(b, c)
  {
    var s := a + [c] + b;
    IndexOfAfterPrefix(a, c, b);
    assert s[..|a|] == a && s[|a| + 1..] == b;
  }

  /** Text with exactly one `c` splits into the two sides. */
  lemma SplitTwo(a: string, c: char, b: string)
    requires c !in a && c !in b
    ensures Split(a + [c] + b, c) == [a, b]
  {
    SplitAfter(a, c, b);
    SplitNone(b, c);
  }

  lemma SplitCons(a: string, c: char, b: string, rest: seq<string>)
    requires c !in a && Split(b, c) == rest
    ensures Split(a + [c] + b, c) == [a] + rest
  {
    SplitAfter(a, c, b);
  }

  /** Text with exactly three `c` splits into the four pieces between them. */
  lemma SplitFour(a: string, b: string, d: string, e: string, c: char)
    requires c !in a && c !in b && c !in d && c !in e
    ensures Split(a + [c] + (b + [c] + (d + [c] + e)), c) == [a, b, d, e]
  {
    var tail := d + [c] + e;
    SplitTwo(d, c, e);
    var middle := b + [c] + tail;
    SplitCons(b, c, tail, [d, e]);
    assert [b] + [d, e] == [b, d, e];
    SplitCons(a, c, middle, [b, d, e]);
    assert [a] + [b, d, e] == [a, b, d, e];
  }

  /** Text holding `c` splits into two pieces at least. */
  lemma SplitHasTwo(s: string, c: char)
    requires c in s
    ensures |Split(s, c)| >= 2
  {
  }

  /** `parts.join(c)`, the inverse of `Split`. */
  function Join(parts: seq<string>, c: char): string
  {
    if |parts| == 0 then ""
    else if |parts| == 1 then parts[0]
    else parts[0] + [c] + Join(parts[1..], c)
  }

  lemma {:induction false} JoinSplit(s: string, c: char)
    ensures Join(Split(s, c), c) == s
    decreases |s|
  {
    var i := IndexOf(s, c);
    if i < |s| {
      var rest := s[i + 1..];
      var parts := Split(rest, c);
      JoinSplit(rest, c);
      assert Split(s, c) == [s[..i]] + parts;
      JoinCons(s[..i], parts, c);
      assert s == s[..i] + [c] + rest;
    }
  }

  lemma JoinCons(first: string, parts: seq<string>, c: char)
    requires |parts| >= 1
    ensures Join([first] + parts, c) == first + [c] + Join(parts, c)
  {
    assert ([first] + parts)[0] == first && ([first] + parts)[1..] == parts;
  }

  lemma {:induction false} SplitJoin(parts: seq<string>, c: char)
    requires |parts| >= 1
    requires forall k :: 0 <= k < |parts| ==> c !in parts[k]
    ensures Split(Join(parts, c), c) == parts
  {
    if |parts| > 1 {
      var rest := Join(parts[1..], c);
      IndexOfAfterPrefix(parts[0], c, rest);
      var s := parts[0] + [c] + rest;
      assert s[..|parts[0]|] == parts[0];
      assert s[|parts[0]| + 1..] == rest;
      SplitJoin(parts[1..], c);
    }
  }

  /** `s.splitn(2, c)`: the text before the first `c`, and the rest after it
      when there is a `c` at all. */
  function SplitOnce(s: string, c: char): (r: (string, Option<string>))
    ensures r.1.None? <==> c !in s
    ensures r.1.None? ==> r.0 == s
    ensures r.1.Some? ==> s == r.0 + [c] + r.1.value && c !in r.0
  {
    var i := IndexOf(s, c);
    if i == |s| then
      (s, None)
    else
      assert s[i] in s;
      assert s == s[..i] + [c] + s[i + 1..];
      (s[..i], Some(s[i + 1..]))
  }

  // ---------------------------------------------------------------------------
  // lines()

  /** Drops one trailing carriage return. */
  function StripCr(line: string): string
  {
    if |line| > 0 && line[|line| - 1] == '\r' then line[..|line| - 1] else line
  }

  /** `s.lines()`: the text split at each `\n`, where a `\r` right before the
      `\n` belongs to the terminator; a final `\n` does not start an empty
      line, and a carriage return that no `\n` follows stays in the line. */
  function Lines(s: string): (ls: seq<string>)
    ensures forall k :: 0 <= k < |ls| ==> '\n' !in ls[k]
    ensures ls == [] <==> s == []
    decreases |s|
  {
    if s == [] then []
    else
      var i := IndexOf(s, '\n');
      if i == |s| then
        [s]
      else
        assert '\n' !in s[..i];
        [StripCr(s[..i])] + Lines(s[i + 1..])
  }

  /** Every line followed by CRLF, the way the wire format terminates lines. */
  function CrlfTerminated(ls: seq<string>): string
  {
    if ls == [] then "" else ls[0] + "\r\n" + CrlfTerminated(ls[1..])
  }

  /** A CRLF-terminated line is one line of `lines()`. */
  lemma FirstLine(line: string, rest: string)
    requires '\n' !in line
    ensures Lines(line + "\r\n" + rest) == [line] + Lines(rest)
  {
    var s := line + "\r\n" + rest;
    assert s == (line + "\r") + ['\n'] + rest;
    IndexOfAfterPrefix(line + "\r", '\n', rest);
    assert s[..|line| + 1] == line + "\r";
    assert s[|line| + 2..] == rest;
    assert StripCr(line + "\r") == line;
  }

  /** `lines()` undoes CRLF termination of lines that hold no `\n`. */
  lemma {:induction false} LinesOfCrlfTerminated(ls: seq<string>, tail: string)
    requires forall k :: 0 <= k < |ls| ==> '\n' !in ls[k]
    ensures Lines(CrlfTerminated(ls) + tail) == ls + Lines(tail)
  {
    if ls == [] {
      assert CrlfTerminated(ls) + tail == tail;
    } else {
      var rest := CrlfTerminated(ls[1..]) + tail;
      calc {
        Lines(CrlfTerminated(ls) + tail);
        { assert CrlfTerminated(ls) + tail == ls[0] + "\r\n" + rest; }
        Lines(ls[0] + "\r\n" + rest);
        { FirstLine(ls[0], rest); }
        [ls[0]] + Lines(rest);
        { LinesOfCrlfTerminated(ls[1..], tail); }
        [ls[0]] + (ls[1..] + Lines(tail));
        { assert ls == [ls[0]] + ls[1..]; }
        ls + Lines(tail);
      }
    }
  }

  // ---------------------------------------------------------------------------
  // split_whitespace()

  /** Unicode's White_Space property, which `char::is_whitespace` tests. */
  predicate IsWhitespace(c: char)
  {
    || ('\U{0009}' <= c <= '\U{000D}')
    || c == ' '
    || c == '\U{0085}'
    || c == '\U{00A0}'
    || c == '\U{1680}'
    || ('\U{2000}' <= c <= '\U{200A}')
    || c == '\U{2028}'
    || c == '\U{2029}'
    || c == '\U{202F}'
    || c == '\U{205F}'
    || c == '\U{3000}'
  }

  predicate IsWord(w: string)
  {
    |w| > 0 && forall j :: 0 <= j < |w| ==> !IsWhitespace(w[j])
  }

  predicate AllWhitespace(s: string)
  {
    forall j :: 0 <= j < |s| ==> IsWhitespace(s[j])
  }

  /** Length of the longest prefix of `s` free of whitespace. */
  function WordLength(s: string): (n: nat)
    ensures n <= |s|
    ensures forall j :: 0 <= j < n ==> !IsWhitespace(s[j])
    ensures n < |s| ==> IsWhitespace(s[n])
  {
    if s == [] || IsWhitespace(s[0]) then 0 else 1 + WordLength(s[1..])
  }

  /** `s.split_whitespace()`: maximal runs of non-whitespace characters. */
  function Words(s: string): (ws: seq<string>)
    ensures forall k :: 0 <= k < |ws| ==> IsWord(ws[k])
    decreases |s|
  {
    if s == [] then []
    else if IsWhitespace(s[0]) then Words(s[1..])
    else
      var n := WordLength(s);
      [s[..n]] + Words(s[n..])
  }

  lemma {:induction false} WordsEmpty(s: string)
    ensures Words(s) == [] <==> AllWhitespace(s)
    decreases |s|
  {
    if s != [] {
      WordsEmpty(s[1..]);
      if IsWhitespace(s[0]) {
        assert AllWhitespace(s) <==> AllWhitespace(s[1..]) by {
          if AllWhitespace(s[1..]) {
            forall j | 0 <= j < |s| ensures IsWhitespace(s[j]) {
              if j > 0 { assert s[j] == s[1..][j - 1]; }
            }
          }
        }
      }
    }
  }

  /** Words separated by single spaces. */
  function Spaced(ws: seq<string>): string
  {
    if |ws| == 0 then ""
    else if |ws| == 1 then ws[0]
    else ws[0] + " " + Spaced(ws[1..])
  }

  lemma WordsOfWord(w: string, tail: string)
    requires IsWord(w)
    requires tail == [] || IsWhitespace(tail[0])
    ensures WordLength(w + tail) == |w|
    decreases |w|
  {
    if |w| > 1 {
      assert (w + tail)[1..] == w[1..] + tail;
      WordsOfWord(w[1..], tail);
    }
  }

  /** `split_whitespace()` recovers words joined by spaces. */
  lemma {:induction false} WordsSpaced(ws: seq<string>)
    requires forall k :: 0 <= k < |ws| ==> IsWord(ws[k])
    ensures Words(Spaced(ws)) == ws
  {
    if |ws| == 1 {
      WordsOfWord(ws[0], "");
      assert ws[0][..|ws[0]|] == ws[0];
      assert ws[0][|ws[0]|..] == [];
    } else if |ws| > 1 {
      var rest := Spaced(ws[1..]);
      var s := ws[0] + (" " + rest);
      assert Spaced(ws) == s;
      WordsOfWord(ws[0], " " + rest);
      assert s[..|ws[0]|] == ws[0];
      assert s[|ws[0]|..] == " " + rest;
      assert (" " + rest)[1..] == rest;
      WordsSpaced(ws[1..]);
    }
  }
}
