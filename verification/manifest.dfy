/**
 The manifest file `latest_checkpoint` of a checkpoint directory: the list of
 retained checkpoint file names, most recent first. It is written as
 `"\n".join(names)` and read back in text mode with `readlines()`, each line
 then passed through `str.strip()`. This module models that text encoding and
 proves that reading gives back what was written.
 */
module Manifest {

  /** The characters Python's `str.isspace()` accepts, which `str.strip()` removes. */
  predicate IsSpace(c: char) {
    var n := c as int;
    n == 0x20 || 0x09 <= n <= 0x0D || 0x1C <= n <= 0x1F || n == 0x85 || n == 0xA0
    || n == 0x1680 || 0x2000 <= n <= 0x200A || n == 0x2028 || n == 0x2029
    || n == 0x202F || n == 0x205F || n == 0x3000
  }

  /** No whitespace at either end. */
  predicate IsStripped(s: string) {
    s == [] || (!IsSpace(s[0]) && !IsSpace(s[|s| - 1]))
  }

  /** Neither of the characters that text mode reads as a line end. */
  predicate NoLineBreak(s: string) {
    '\n' !in s && '\r' !in s
  }

  /** A name that survives one write and one read of the manifest unchanged. */
  predicate IsEntry(s: string) {
    s != [] && IsStripped(s) && NoLineBreak(s)
  }

  /** `"\n".join(names)`: the separator goes between entries, none after the last. */
  function Join(names: seq<string>): (text: string)
    ensures (forall i :: 0 <= i < |names| ==> '\r' !in names[i]) ==> '\r' !in text
  {
    if |names| == 0 then ""
    else if |names| == 1 then names[0]
    else names[0] + "\n" + Join(names[1..])
  }

  /** Universal-newline translation done by a file opened in text mode:
      "\r\n" and a lone "\r" are both read as "\n". */
  function Translate(raw: string): (t: string)
    ensures '\r' !in t
    ensures '\r' !in raw ==> t == raw
    ensures |t| <= |raw|
    decreases |raw|
  {
    if raw == [] then []
    else if raw[0] == '\r' then
      "\n" + Translate(if |raw| > 1 && raw[1] == '\n' then raw[2..] else raw[1..])
    else [raw[0]] + Translate(raw[1..])
  }

  /** A piece of text without "\r" goes through the translation unchanged. */
  lemma {:induction false} TranslatePrefix(a: string, b: string)
    requires '\r' !in a
    ensures Translate(a + b) == a + Translate(b)
  {
    if a == [] {
      assert a + b == b;
    } else {
      var head, tail := a[0], a[1..];
      assert a == [head] + tail;
      assert head != '\r' && '\r' !in tail;
      var ab := a + b;
      assert ab[0] == head && ab[1..] == tail + b;
      TranslatePrefix(tail, b);
      assert Translate(ab) == [head] + (tail + Translate(b));
    }
  }

  /** A "\r\n" pair is read as one "\n". */
  lemma {:induction false} TranslateCrLf(a: string, b: string)
    requires '\r' !in a
    ensures Translate(a + "\r\n" + b) == a + "\n" + Translate(b)
  {
    var rest := "\r\n" + b;
    assert a + "\r\n" + b == a + rest;
    TranslatePrefix(a, rest);
    assert rest[0] == '\r' && rest[1] == '\n' && rest[2..] == b;
  }

  /** A lone "\r", not followed by "\n", is read as "\n". */
  lemma {:induction false} TranslateLoneCr(a: string, b: string)
    requires '\r' !in a
    requires b == [] || b[0] != '\n'
    ensures Translate(a + "\r" + b) == a + "\n" + Translate(b)
  {
    var rest := "\r" + b;
    assert a + "\r" + b == a + rest;
    TranslatePrefix(a, rest);
    assert rest[0] == '\r' && rest[1..] == b;
  }

  /** The index of the first "\n" of `t`, or `|t|` when there is none. */
  function LineEnd(t: string): (k: nat)
    ensures k <= |t|
    ensures forall i :: 0 <= i < k ==> t[i] != '\n'
    ensures k < |t| ==> t[k] == '\n'
  {
    if t == [] || t[0] == '\n' then 0 else 1 + LineEnd(t[1..])
  }

  /** A line without its terminating "\n", if it has one. */
  function LineBody(line: string): (body: string)
    ensures body <= line
    ensures |line| - 1 <= |body|
  {
    if line != [] && line[|line| - 1] == '\n' then line[..|line| - 1] else line
  }

  /** The concatenation of a list of lines. */
  function Concat(lines: seq<string>): string {
    if lines == [] then "" else lines[0] + Concat(lines[1..])
  }

  /** `readlines()`: the text cut after every "\n", each line keeping its
      terminator; a last line without one is kept when it is not empty. */
  function ReadLines(t: string): (lines: seq<string>)
    ensures Concat(lines) == t
    ensures forall i :: 0 <= i < |lines| ==> lines[i] != [] && '\n' !in LineBody(lines[i])
    ensures forall i :: 0 <= i < |lines| - 1 ==> lines[i][|lines[i]| - 1] == '\n'
    ensures '\r' !in t ==> forall i :: 0 <= i < |lines| ==> '\r' !in lines[i]
    decreases |t|
  {
    if t == [] then []
    else
      var k := LineEnd(t);
      if k == |t| then [t]
      else
        var line := t[..k + 1];
        assert LineBody(line) == t[..k] && line[k] == '\n';
        assert t == line + t[k + 1..];
        [line] + ReadLines(t[k + 1..])
  }

  /** `str.strip()`: whitespace removed at both ends, the end first. What
      remains holds no character the input does not. */
  function Strip(s: string): (r: string)
    ensures IsStripped(r)
    ensures IsStripped(s) ==> r == s
    ensures |r| <= |s|
    ensures '\n' !in s ==> '\n' !in r
    ensures '\r' !in s ==> '\r' !in r
  {
    if s != [] && IsSpace(s[|s| - 1]) then Strip(s[..|s| - 1])
    else if s != [] && IsSpace(s[0]) then Strip(s[1..])
    else s
  }

  /** `r` is the piece of `s` at `i`, with only whitespace around it. */
  predicate IsSliceAt(s: string, r: string, i: int) {
    && 0 <= i <= |s| - |r| && r == s[i..i + |r|]
    && (forall k :: 0 <= k < i ==> IsSpace(s[k]))
    && (forall k :: i + |r| <= k < |s| ==> IsSpace(s[k]))
  }

  /** A trailing whitespace character added to the input keeps the piece. */
  lemma {:induction false} SliceDropLast(s: string, r: string, i: int)
    requires s != [] && IsSpace(s[|s| - 1])
    requires IsSliceAt(s[..|s| - 1], r, i)
    ensures IsSliceAt(s, r, i)
  {
    var t := s[..|s| - 1];
    assert t[i..i + |r|] == s[i..i + |r|];
    forall k | 0 <= k < i ensures IsSpace(s[k]) {
      assert s[k] == t[k];
    }
    forall k | i + |r| <= k < |s| ensures IsSpace(s[k]) {
      if k < |t| {
        assert s[k] == t[k];
      }
    }
  }

  /** A leading whitespace character added to the input moves the piece by one. */
  lemma {:induction false} SliceDropFirst(s: string, r: string, i: int)
    requires s != [] && IsSpace(s[0])
    requires IsSliceAt(s[1..], r, i)
    ensures IsSliceAt(s, r, i + 1)
  {
    var t := s[1..];
    assert t[i..i + |r|] == s[i + 1..i + 1 + |r|];
    forall k | 0 <= k < i + 1 ensures IsSpace(s[k]) {
      if k > 0 {
        assert s[k] == t[k - 1];
      }
    }
    forall k | i + 1 + |r| <= k < |s| ensures IsSpace(s[k]) {
      assert s[k] == t[k - 1];
    }
  }

  /** `str.strip()` removes only whitespace: the result is a piece of the
      input with nothing but whitespace before and after it. */
  lemma {:induction false} StripIsSlice(s: string) returns (i: int)
    ensures IsSliceAt(s, Strip(s), i)
  {
    if s != [] && IsSpace(s[|s| - 1]) {
      i := StripIsSlice(s[..|s| - 1]);
      SliceDropLast(s, Strip(s), i);
    } else if s != [] && IsSpace(s[0]) {
      var j := StripIsSlice(s[1..]);
      SliceDropFirst(s, Strip(s), j);
      i := j + 1;
    } else {
      i := 0;
    }
  }

  /** A line terminator never reaches the stripped result. */
  lemma {:induction false} StripIgnoresLineEnd(line: string)
    ensures Strip(line) == Strip(LineBody(line))
  {
    if line != [] && line[|line| - 1] == '\n' {
      assert IsSpace(line[|line| - 1]);
    }
  }

  /** A line without "\r" and with "\n" at most as its terminator strips to
      a single line. */
  lemma {:induction false} StripOneLine(line: string)
    ensures '\r' !in line && '\n' !in LineBody(line) ==> NoLineBreak(Strip(line))
  {
    StripIgnoresLineEnd(line);
  }

  /** `[_.strip() for _ in lines]`. */
  function StripLines(lines: seq<string>): (entries: seq<string>)
    ensures |entries| == |lines|
  {
    if lines == [] then [] else [Strip(lines[0])] + StripLines(lines[1..])
  }

  /** Each entry is its line, stripped. */
  lemma {:induction false} StripLinesAt(lines: seq<string>, i: int)
    requires 0 <= i < |lines|
    ensures StripLines(lines)[i] == Strip(lines[i])
  {
    if i > 0 {
      StripLinesAt(lines[1..], i - 1);
    }
  }

  /** The lines `readlines()` returns for a text without "\r" each strip to
      a single stripped line. */
  lemma {:induction false} StripReadLines(t: string)
    requires '\r' !in t
    ensures forall e :: e in StripLines(ReadLines(t)) ==> IsStripped(e) && NoLineBreak(e)
  {
    var lines := ReadLines(t);
    var entries := StripLines(lines);
    forall i | 0 <= i < |entries| ensures IsStripped(entries[i]) && NoLineBreak(entries[i]) {
      StripLinesAt(lines, i);
      StripOneLine(lines[i]);
    }
  }

  /** Reading the manifest text: the lines of `fp.readlines()`, after the
      universal-newline translation of text mode, each stripped. Every entry
      read back is a single stripped line. */
  function Decode(text: string): (entries: seq<string>)
    ensures forall e :: e in entries ==> IsStripped(e) && NoLineBreak(e)
  {
    StripReadLines(Translate(text));
    StripLines(ReadLines(Translate(text)))
  }

  /** Reading a line and its "\n" separator, then the rest of the text. */
  lemma {:induction false} ReadLinesAfterLine(name: string, rest: string)
    requires '\n' !in name
    ensures ReadLines(name + "\n" + rest) == [name + "\n"] + ReadLines(rest)
  {
    var t := name + "\n" + rest;
    var k := LineEnd(t);
    assert t[|name|] == '\n';
    assert k == |name|;
    assert t[..k + 1] == name + "\n";
    assert t[k + 1..] == rest;
  }

  /** Reading a single line with no terminator. */
  lemma {:induction false} ReadLinesSingle(name: string)
    requires name != [] && '\n' !in name
    ensures ReadLines(name) == [name]
  {
  }

  /** One entry, read back. */
  lemma {:induction false} StripReadOne(n: string)
    requires IsEntry(n)
    ensures StripLines(ReadLines(Join([n]))) == [n]
  {
    assert Join([n]) == n;
    ReadLinesSingle(n);
    assert StripLines([n]) == [Strip(n)];
  }

  /** Joining an entry in front of a non-empty list. */
  lemma {:induction false} JoinCons(n: string, rest: seq<string>)
    requires |rest| >= 1
    ensures Join([n] + rest) == n + "\n" + Join(rest)
  {
    var names := [n] + rest;
    assert names[0] == n && names[1..] == rest;
  }

  /** Stripping a list of lines, one line at a time. */
  lemma {:induction false} StripLinesCons(line: string, lines: seq<string>)
    ensures StripLines([line] + lines) == [Strip(line)] + StripLines(lines)
  {
    var all := [line] + lines;
    assert all[0] == line && all[1..] == lines;
  }

  /** An entry in front of a list that reads back, read back. */
  lemma {:induction false} StripReadCons(n: string, rest: seq<string>)
    requires IsEntry(n) && |rest| >= 1
    requires StripLines(ReadLines(Join(rest))) == rest
    ensures StripLines(ReadLines(Join([n] + rest))) == [n] + rest
  {
    JoinCons(n, rest);
    ReadLinesAfterLine(n, Join(rest));
    StripLinesCons(n + "\n", ReadLines(Join(rest)));
    assert LineBody(n + "\n") == n;
    StripIgnoresLineEnd(n + "\n");
  }

  /** The lines of a joined list, stripped, are the entries of that list. */
  lemma {:induction false} StripReadJoin(names: seq<string>)
    requires forall i :: 0 <= i < |names| ==> IsEntry(names[i])
    ensures StripLines(ReadLines(Join(names))) == names
  {
    if |names| == 1 {
      StripReadOne(names[0]);
      assert names == [names[0]];
    } else if |names| > 1 {
      StripReadJoin(names[1..]);
      StripReadCons(names[0], names[1..]);
      assert names == [names[0]] + names[1..];
    }
  }

  /** Round trip of the manifest: the list written at a save is the list read
      at the next one, for names that are non-empty single stripped lines. */
  lemma {:induction false} DecodeJoin(names: seq<string>)
    requires forall i :: 0 <= i < |names| ==> IsEntry(names[i])
    ensures Decode(Join(names)) == names
  {
    StripReadJoin(names);
  }

  /** An absent manifest is created empty, and an empty manifest lists nothing. */
  lemma {:induction false} DecodeEmpty()
    ensures Decode("") == []
  {
  }
}
