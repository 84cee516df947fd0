/** The `.memh` text format: written by `tools/v002/generate_smoke_program.py`, read
    and checked against the program by `tools/v002/generate_driver_handoff.py`.

    Text is what a file read in text mode gives: every line ending the platform knows
    is already a newline. */
module Memh {
  import opened Prelude
  import opened Text

  type Word = n: nat | n < 0x1_0000_0000_0000_0000

  // ----- hex words

  const WORD_DIGITS: nat := 16
  const HEX_DIGITS: string := "0123456789abcdef"

  function DigitValue(c: char): Option<nat> {
    if '0' <= c <= '9' then Some((c - '0') as nat)
    else if 'a' <= c <= 'f' then Some((c - 'a') as nat + 10)
    else if 'A' <= c <= 'F' then Some((c - 'A') as nat + 10)
    else None
  }

  predicate IsHex(s: string) {
    forall i :: 0 <= i < |s| ==> DigitValue(s[i]).Some?
  }

  /** `int(s, 16)` */
  function HexValue(s: string): nat
    requires IsHex(s)
  {
    if s == "" then 0 else 16 * HexValue(s[..|s| - 1]) + DigitValue(s[|s| - 1]).value
  }

  /** The k low hex digits of n, most significant first. */
  function Digits(n: nat, k: nat): (s: string)
    ensures |s| == k
    decreases k
  {
    if k == 0 then "" else Digits(n / 16, k - 1) + [HEX_DIGITS[n % 16]]
  }

  /** `f"0x{n:016x}"` */
  function WordHex(n: Word): (s: string)
    ensures |s| == 18
  {
    "0x" + Digits(n, WORD_DIGITS)
  }

  function Pow16(k: nat): (p: nat)
    ensures p > 0
  {
    if k == 0 then 1 else 16 * Pow16(k - 1)
  }

  lemma {:induction false} Pow16Mono(a: nat, b: nat)
    requires a <= b
    ensures Pow16(a) <= Pow16(b)
    decreases b
  {
    if a < b { Pow16Mono(a, b - 1); }
  }

  lemma Pow16Value()
    ensures Pow16(WORD_DIGITS) == 0x1_0000_0000_0000_0000
  {
    assert Pow16(4) == 0x1_0000;
    assert Pow16(8) == 0x1_0000_0000;
    assert Pow16(12) == 0x1_0000_0000_0000;
    assert Pow16(16) == 0x1_0000_0000_0000_0000;
  }

  lemma {:induction false} HexValueFits(s: string)
    requires IsHex(s)
    ensures HexValue(s) < Pow16(|s|)
  {
    if s != "" { HexValueFits(s[..|s| - 1]); }
  }

  lemma DigitReads(d: nat)
    requires d < 16
    ensures DigitValue(HEX_DIGITS[d]) == Some(d)
    ensures Lower(HEX_DIGITS[d]) == HEX_DIGITS[d] && !IsSpace(HEX_DIGITS[d]) && HEX_DIGITS[d] !in "#/x"
  {
  }

  /** A digit string reads as the number it was written for. */
  lemma {:induction false} DigitsRead(n: nat, k: nat)
    requires n < Pow16(k)
    ensures IsHex(Digits(n, k)) && HexValue(Digits(n, k)) == n
    decreases k
  {
    if k > 0 {
      DigitsRead(n / 16, k - 1);
      DigitReads(n % 16);
      assert Digits(n, k)[..k - 1] == Digits(n / 16, k - 1);
    }
  }

  function Lower(c: char): char {
    if 'A' <= c <= 'Z' then c - 'A' + 'a' else c
  }

  function LowerAll(s: string): (t: string)
    ensures |t| == |s|
  {
    seq(|s|, i requires 0 <= i < |s| => Lower(s[i]))
  }

  /** `parse_hex_word`: at most sixteen digits after an optional 0x. */
  function ParseHexWord(raw: string): Result<Word, string> {
    var lower := LowerAll(Strip(raw));
    var value := if |lower| >= 2 && lower[..2] == "0x" then lower[2..] else lower;
    if 1 <= |value| <= WORD_DIGITS && IsHex(value) then
      HexValueFits(value);
      Pow16Mono(|value|, WORD_DIGITS);
      Pow16Value();
      Ok(HexValue(value))
    else Err("invalid hex word")
  }

  /** `normalize_word` */
  function NormalizeWord(raw: string): Result<string, string> {
    var n :- ParseHexWord(raw);
    Ok(WordHex(n))
  }

  // ----- the reader

  predicate IsBreak(c: char) {
    c == '\n' || c == '\U{0B}' || c == '\U{0C}' || '\U{1C}' <= c <= '\U{1E}'
  }

  /** The place of the first line break, or the length. */
  function LineEnd(t: string): (n: nat)
    ensures n <= |t|
    ensures n < |t| ==> IsBreak(t[n])
    ensures forall i :: 0 <= i < n ==> !IsBreak(t[i])
  {
    if t == "" || IsBreak(t[0]) then 0 else 1 + LineEnd(t[1..])
  }

  /** `splitlines()` */
  function Lines(t: string): seq<string>
    decreases |t|
  {
    if t == "" then []
    else if LineEnd(t) == |t| then [t]
    else [t[..LineEnd(t)]] + Lines(t[LineEnd(t) + 1..])
  }

  /** `split("#", 1)[0]` */
  function BeforeHash(s: string): string {
    if s == "" || s[0] == '#' then "" else [s[0]] + BeforeHash(s[1..])
  }

  /** `split("//", 1)[0]` */
  function BeforeSlashes(s: string): string {
    if s == "" || (|s| >= 2 && s[0] == '/' && s[1] == '/') then "" else [s[0]] + BeforeSlashes(s[1..])
  }

  /** What a line says once comments and blanks are gone; empty if it says nothing. */
  function LineToken(line: string): string {
    var token := Strip(line);
    if token == "" || token[0] == '#' || (|token| >= 2 && token[..2] == "//") then ""
    else Strip(BeforeSlashes(BeforeHash(token)))
  }

  /** The normalised words of the lines that say something, or the first that has
      none. */
  function Words(lines: seq<string>): Result<seq<string>, string> {
    if lines == [] then Ok([])
    else if LineToken(lines[0]) == "" then Words(lines[1..])
    else
      var w :- NormalizeWord(LineToken(lines[0]));
      Continue([w], Words(lines[1..]))
  }

  function WordsIn(text: string): Result<seq<string>, string> {
    Words(Lines(text))
  }

  function ReadMemh(text: string): Result<seq<string>, string> {
    var ws :- WordsIn(text);
    if ws == [] then Err("no instruction words") else Ok(ws)
  }

  /** `read_memh_lines`; None is a file that does not exist. */
  method ReadMemhLines(file: Option<string>) returns (r: Result<seq<string>, string>)
    ensures r == if file.None? then Err("missing memh file") else ReadMemh(file.value)
  {
    if file.None? {
      return Err("missing memh file");
    }
    var rest := Lines(file.value);
    var words := [];
    ghost var all := Words(rest);
    Continued([], all);
    while rest != []
      invariant all == Continue(words, Words(rest))
    {
      var token := LineToken(rest[0]);
      var left := rest[1..];
      if token != "" {
        var w := NormalizeWord(token);
        if w.Err? {
          return Err(w.error);
        }
        ContinuedOne(words, w.value, Words(left));
        words := words + [w.value];
      }
      rest := left;
    }
    Continued(words, Ok([]));
    if words == [] {
      return Err("no instruction words");
    }
    return Ok(words);
  }

  /** Words read so far, followed by the outcome of the rest. */
  function Continue(words: seq<string>, rest: Result<seq<string>, string>): Result<seq<string>, string> {
    if rest.Err? then rest else Ok(words + rest.value)
  }

  lemma Continued(words: seq<string>, rest: Result<seq<string>, string>)
    ensures words == [] ==> Continue(words, rest) == rest
    ensures rest == Ok([]) ==> Continue(words, rest) == Ok(words)
  {
    if rest.Ok? {
      assert words == [] ==> words + rest.value == rest.value;
      assert rest.value == [] ==> words + rest.value == words;
    }
  }

  lemma ContinuedOne(words: seq<string>, w: string, rest: Result<seq<string>, string>)
    ensures Continue(words, Continue([w], rest)) == Continue(words + [w], rest)
  {
    if rest.Ok? { assert words + ([w] + rest.value) == words + [w] + rest.value; }
  }

  // ----- the writer

  /** `write_memh`: the digits of each word on a line of its own. */
  function WriteMemh(ws: seq<Word>): string {
    Joined(ws) + "\n"
  }

  function Joined(ws: seq<Word>): string {
    if ws == [] then ""
    else if |ws| == 1 then Digits(ws[0], WORD_DIGITS)
    else Digits(ws[0], WORD_DIGITS) + "\n" + Joined(ws[1..])
  }

  function WordHexes(ws: seq<Word>): (hs: seq<string>)
    ensures |hs| == |ws|
  {
    if ws == [] then [] else [WordHex(ws[0])] + WordHexes(ws[1..])
  }

  // ----- round trip

  /** A non-empty string of lower-case hex digits. */
  ghost predicate Plain(s: string) {
    s != "" && forall i :: 0 <= i < |s| ==> !IsSpace(s[i]) && s[i] !in "#/x" && Lower(s[i]) == s[i]
  }

  lemma {:induction false} DigitsPlain(n: nat, k: nat)
    ensures k > 0 ==> Plain(Digits(n, k))
    decreases k
  {
    if k > 0 {
      DigitsPlain(n / 16, k - 1);
      DigitReads(n % 16);
    }
  }

  lemma {:induction false} NoHash(s: string)
    requires forall i :: 0 <= i < |s| ==> s[i] !in "#/"
    ensures BeforeHash(s) == s && BeforeSlashes(s) == s
  {
    if s != "" { NoHash(s[1..]); }
  }

  lemma PlainToken(s: string)
    requires Plain(s)
    ensures Strip(s) == s && LowerAll(s) == s && LineToken(s) == s
  {
    StripPlain(s);
    LowerPlain(s);
    NoHash(s);
  }

  lemma StripPlain(s: string)
    requires Plain(s)
    ensures Strip(s) == s
  {
    assert !IsSpace(s[0]) && !IsSpace(s[|s| - 1]);
  }

  lemma LowerPlain(s: string)
    requires Plain(s)
    ensures LowerAll(s) == s
  {
  }

  lemma DigitsNormalize(n: Word)
    ensures LineToken(Digits(n, WORD_DIGITS)) == Digits(n, WORD_DIGITS) != ""
    ensures NormalizeWord(Digits(n, WORD_DIGITS)) == Ok(WordHex(n))
  {
    var s := Digits(n, WORD_DIGITS);
    DigitsPlain(n, WORD_DIGITS);
    PlainToken(s);
    Pow16Value();
    DigitsRead(n, WORD_DIGITS);
    assert s[..2] != "0x" by { assert s[..2][1] == s[1] != "0x"[1]; }
  }

  lemma {:induction false} LineEndOf(line: string, c: char, rest: string)
    requires IsBreak(c) && forall i :: 0 <= i < |line| ==> !IsBreak(line[i])
    ensures LineEnd(line + [c] + rest) == |line|
  {
    if line != "" {
      assert (line + [c] + rest)[1..] == line[1..] + [c] + rest;
      LineEndOf(line[1..], c, rest);
    }
  }

  /** A text is split at every line break, and what follows the last one is a line of its
      own unless it is empty. */
  lemma LinesSplit(line: string, c: char, rest: string)
    requires IsBreak(c) && forall i :: 0 <= i < |line| ==> !IsBreak(line[i])
    ensures Lines(line + [c] + rest) == [line] + Lines(rest)
    ensures Lines(line) == if line == "" then [] else [line]
  {
    LineEndOf(line, c, rest);
    var t := line + [c] + rest;
    assert t[..|line|] == line && t[|line| + 1..] == rest;
  }

  lemma FirstLine(line: string, rest: string)
    requires forall i :: 0 <= i < |line| ==> !IsBreak(line[i])
    ensures Lines(line + "\n" + rest) == [line] + Lines(rest)
  {
    LinesSplit(line, '\n', rest);
  }

  /** A line of one word, before any others. */
  lemma FirstWord(n: Word, rest: string, text: string)
    requires text == Digits(n, WORD_DIGITS) + "\n" + rest
    ensures WordsIn(text) == Continue([WordHex(n)], WordsIn(rest))
  {
    var line := Digits(n, WORD_DIGITS);
    DigitsPlain(n, WORD_DIGITS);
    DigitsNormalize(n);
    FirstLine(line, rest);
    SayingLine(line, Lines(rest), [line] + Lines(rest), WordHex(n));
  }

  lemma SayingLine(line: string, rest: seq<string>, lines: seq<string>, w: string)
    requires lines == [line] + rest && LineToken(line) != "" && NormalizeWord(LineToken(line)) == Ok(w)
    ensures Words(lines) == Continue([w], Words(rest))
  {
    assert lines[1..] == rest;
  }

  /** What is written is each word's sixteen digits and a newline, one word after another. */
  lemma WrittenHead(ws: seq<Word>)
    requires ws != []
    ensures WriteMemh(ws) == Digits(ws[0], WORD_DIGITS) + "\n" + if |ws| == 1 then "" else WriteMemh(ws[1..])
  {
    if |ws| > 1 { Reassociate(Digits(ws[0], WORD_DIGITS), Joined(ws[1..]), "\n"); }
  }

  lemma Reassociate(a: string, b: string, sep: string)
    ensures (a + sep + b) + sep == a + sep + (b + sep)
  {
  }

  lemma {:induction false} WrittenWords(ws: seq<Word>, text: string)
    requires ws != [] && text == WriteMemh(ws)
    ensures WordsIn(text) == Ok(WordHexes(ws))
    decreases |ws|
  {
    WrittenHead(ws);
    if |ws| == 1 {
      FirstWord(ws[0], "", text);
      assert WordsIn("") == Ok([]);
    } else {
      var rest := WriteMemh(ws[1..]);
      WrittenWords(ws[1..], rest);
      FirstWord(ws[0], rest, text);
    }
  }

  /** Reading what was written gives the words back, normalised; a file of no words is
      refused. */
  lemma RoundTrip(ws: seq<Word>)
    ensures ReadMemh(WriteMemh(ws)) == if ws == [] then Err("no instruction words") else Ok(WordHexes(ws))
  {
    if ws == [] {
      FirstLine("", "");
      assert WriteMemh(ws) == "" + "\n" + "";
      assert LineToken("") == "";
      assert Lines(WriteMemh(ws)) == [""] && [""][1..] == [];
    } else {
      WrittenWords(ws, WriteMemh(ws));
    }
  }

  /** A word is normalised to 0x and the sixteen lower-case digits that read as it. */
  lemma WordHexIs(n: Word)
    ensures WordHex(n)[..2] == "0x" && IsHex(WordHex(n)[2..]) && HexValue(WordHex(n)[2..]) == n
    ensures LowerAll(WordHex(n)[2..]) == WordHex(n)[2..] && |WordHex(n)| == 18
  {
    Pow16Value();
    DigitsRead(n, WORD_DIGITS);
    DigitsPlain(n, WORD_DIGITS);
    LowerPlain(Digits(n, WORD_DIGITS));
    assert WordHex(n)[2..] == Digits(n, WORD_DIGITS);
  }

  // ----- what a line says

  lemma {:induction false} StripRightAppend(x: string, y: string)
    requires StripRight(y) != ""
    ensures StripRight(x + y) == x + StripRight(y)
    decreases |y|
  {
    if IsSpace(y[|y| - 1]) {
      assert (x + y)[..|x + y| - 1] == x + y[..|y| - 1];
      StripRightAppend(x, y[..|y| - 1]);
    }
  }

  lemma {:induction false} StripRightKeeps(y: string, n: nat)
    requires n <= |y| && forall i :: 0 <= i < n ==> !IsSpace(y[i])
    ensures n <= |StripRight(y)| && StripRight(y)[..n] == y[..n]
    decreases |y|
  {
    if y != "" && IsSpace(y[|y| - 1]) {
      StripRightKeeps(y[..|y| - 1], n);
      assert y[..|y| - 1][..n] == y[..n];
    }
  }

  lemma {:induction false} BeforeHashAppend(x: string, y: string)
    requires forall i :: 0 <= i < |x| ==> x[i] != '#'
    ensures BeforeHash(x + y) == x + BeforeHash(y)
  {
    if x == "" { assert x + y == y; } else {
      assert (x + y)[1..] == x[1..] + y;
      BeforeHashAppend(x[1..], y);
    }
  }

  lemma {:induction false} BeforeSlashesAppend(x: string, y: string)
    requires forall i :: 0 <= i < |x| ==> x[i] != '/'
    ensures BeforeSlashes(x + y) == x + BeforeSlashes(y)
  {
    if x == "" { assert x + y == y; } else {
      assert (x + y)[1..] == x[1..] + y;
      BeforeSlashesAppend(x[1..], y);
    }
  }

  /** A comment, or nothing. */
  predicate IsComment(c: string) {
    c == "" || c[0] == '#' || (|c| >= 2 && c[0] == '/' && c[1] == '/')
  }

  lemma CommentCut(c: string)
    requires IsComment(c)
    ensures IsComment(StripRight(c)) && (c != "" ==> StripRight(c) != "" && !IsSpace(c[0]))
    ensures BeforeSlashes(BeforeHash(c)) == ""
  {
    if c != "" && c[0] != '#' {
      StripRightKeeps(c, 2);
      assert StripRight(c)[..2][0] == c[..2][0] && StripRight(c)[..2][1] == c[..2][1];
      BeforeHashAppend(c[..2], c[2..]);
      assert c == c[..2] + c[2..];
    } else if c != "" {
      StripRightKeeps(c, 1);
      assert StripRight(c)[..1][0] == c[..1][0];
    }
  }

  /** The word of a line, without white space at its ends or comment signs in it. */
  ghost predicate IsWord(w: string) {
    && (w != "" ==> !IsSpace(w[0]) && !IsSpace(w[|w| - 1]))
    && forall i :: 0 <= i < |w| ==> w[i] != '#' && w[i] != '/'
  }

  lemma LineStripped(a: string, word: string, b: string, comment: string) returns (c: string)
    requires AllSpace(a) && AllSpace(b) && IsWord(word) && IsComment(comment)
    ensures IsComment(c)
    ensures Strip(a + (word + b + comment)) == if word == "" then c else if comment == "" then word else word + b + c
  {
    CommentCut(comment);
    c := StripRight(comment);
    var core := word + b + comment;
    if word != "" {
      LeftBlank(a, core);
      if comment == "" {
        assert core == word + b;
        RightBlank(word, b);
      } else {
        StripRightAppend(word + b, comment);
      }
    } else {
      assert a + core == (a + b) + comment;
      LeftBlank(a + b, comment);
    }
  }

  /** What is before the comment, white space removed. */
  lemma WordCut(word: string, b: string, c: string, wb: string)
    requires AllSpace(b) && IsWord(word) && IsComment(c) && wb == word + b
    ensures Strip(BeforeSlashes(BeforeHash(wb + c))) == word
  {
    CommentCut(c);
    BeforeHashAppend(wb, c);
    BeforeSlashesAppend(wb, BeforeHash(c));
    assert wb + "" == wb == "" + word + b;
    StripPadded("", word, b);
  }

  lemma TokenSays(line: string, token: string)
    requires token == Strip(line) && token != "" && token[0] != '#' && token[0] != '/'
    ensures LineToken(line) == Strip(BeforeSlashes(BeforeHash(token)))
  {
    if |token| >= 2 { assert token[..2][0] == token[0]; }
  }

  /** A line is white space, a word, white space and a comment, each of them possibly
      empty: what it says is the word. */
  lemma LineSays(a: string, word: string, b: string, comment: string)
    requires AllSpace(a) && AllSpace(b) && IsWord(word) && IsComment(comment)
    ensures LineToken(a + (word + b + comment)) == word
  {
    var line := a + (word + b + comment);
    var c := LineStripped(a, word, b, comment);
    if word != "" {
      TokenSays(line, Strip(line));
      if comment == "" {
        assert word == word + "" == word + "" + "";
        WordCut(word, "", "", word + "");
      } else {
        WordCut(word, b, c, word + b);
      }
    }
  }

  // ----- what a word may look like

  lemma LowerDigits(t: string, n: nat, k: nat)
    requires k > 0 && LowerAll(t) == Digits(n, k)
    ensures |t| == k && forall i :: 0 <= i < |t| ==> !IsSpace(t[i])
    ensures Lower(t[0]) != 'x' && (k > 1 ==> Lower(t[1]) != 'x')
  {
    DigitsPlain(n, k);
    forall i | 0 <= i < |t| ensures !IsSpace(t[i]) {
      assert LowerAll(t)[i] == Digits(n, k)[i];
    }
    assert LowerAll(t)[0] == Digits(n, k)[0] && (k > 1 ==> LowerAll(t)[1] == Digits(n, k)[1]);
  }

  lemma LowerAppend(x: string, y: string)
    ensures LowerAll(x + y) == LowerAll(x) + LowerAll(y)
  {
  }

  lemma Parses(raw: string, lower: string, value: string)
    requires lower == LowerAll(Strip(raw)) && 1 <= |value| <= WORD_DIGITS && IsHex(value)
    requires lower == "0x" + value || (lower == value && (|value| > 1 ==> value[1] != 'x'))
    ensures HexValue(value) < 0x1_0000_0000_0000_0000 && ParseHexWord(raw) == Ok(HexValue(value))
  {
    HexValueFits(value);
    Pow16Mono(|value|, WORD_DIGITS);
    Pow16Value();
    if lower == value {
      assert |lower| >= 2 ==> lower[..2][1] == value[1];
    } else {
      assert lower[..2] == "0x" && lower[2..] == value;
    }
  }

  /** A number is read from one to sixteen of its hexadecimal digits, in either case, with
      or without 0x, and with any white space around it. */
  lemma AnyFormParses(n: nat, k: nat, t: string, prefix: string, a: string, b: string)
    requires 1 <= k <= 16 && n < Pow16(k) && LowerAll(t) == Digits(n, k)
    requires prefix == "" || prefix == "0x" || prefix == "0X"
    requires AllSpace(a) && AllSpace(b)
    ensures n < 0x1_0000_0000_0000_0000 && ParseHexWord(a + (prefix + t) + b) == Ok(n)
  {
    LowerDigits(t, n, k);
    DigitsRead(n, k);
    StripPadded(a, prefix + t, b);
    LowerAppend(prefix, t);
    LowerPrefix(prefix);
    assert "" + LowerAll(t) == LowerAll(t);
    Parses(a + (prefix + t) + b, LowerAll(prefix + t), Digits(n, k));
  }

  ghost predicate IsLower(s: string) {
    forall i :: 0 <= i < |s| ==> Lower(s[i]) == s[i]
  }

  lemma {:induction false} ValueDigits(v: string)
    requires IsHex(v) && IsLower(v)
    ensures Digits(HexValue(v), |v|) == v
  {
    if v != "" {
      var n := |v| - 1;
      var high := v[..n];
      assert IsHex(high) && IsLower(high);
      ValueDigits(high);
      DigitWritten(v[n]);
      OneMoreDigit(HexValue(high), DigitValue(v[n]).value, n, |v|, HexValue(v));
      assert v == high + [v[n]];
    }
  }

  lemma OneMoreDigit(high: nat, d: nat, k: nat, next: nat, n: nat)
    requires d < 16 && next == k + 1 && n == 16 * high + d
    ensures Digits(n, next) == Digits(high, k) + [HEX_DIGITS[d]]
  {
    assert n / 16 == high && n % 16 == d;
  }

  lemma DigitWritten(c: char)
    requires DigitValue(c).Some? && Lower(c) == c
    ensures DigitValue(c).value < 16 && HEX_DIGITS[DigitValue(c).value] == c
  {
  }

  lemma PrefixIs(t: string)
    requires |t| >= 2 && LowerAll(t)[..2] == "0x"
    ensures t[..2] == "0x" || t[..2] == "0X"
    ensures LowerAll(t)[2..] == LowerAll(t[2..]) && t == t[..2] + t[2..]
  {
    assert LowerAll(t)[..2][0] == Lower(t[0]) && LowerAll(t)[..2][1] == Lower(t[1]);
  }

  lemma LowerIsLower(t: string)
    ensures IsLower(LowerAll(t))
  {
  }

  /** The digits that were read. */
  lemma CoreForm(core: string, lower: string, n: nat) returns (prefix: string, t: string)
    requires lower == LowerAll(core)
    requires var value := if |lower| >= 2 && lower[..2] == "0x" then lower[2..] else lower;
      1 <= |value| <= 16 && IsHex(value) && n == HexValue(value)
    ensures core == prefix + t && (prefix == "" || prefix == "0x" || prefix == "0X")
    ensures 1 <= |t| <= 16 && LowerAll(t) == Digits(n, |t|)
  {
    if |lower| >= 2 && lower[..2] == "0x" {
      PrefixIs(core);
      prefix, t := core[..2], core[2..];
    } else {
      prefix, t := "", core;
    }
    LowerIsLower(t);
    ValueDigits(LowerAll(t));
  }

  /** And nothing else is read. */
  lemma OnlySuchForms(raw: string, n: nat) returns (a: string, prefix: string, t: string, b: string)
    requires ParseHexWord(raw) == Ok(n)
    ensures raw == a + (prefix + t) + b && AllSpace(a) && AllSpace(b)
    ensures prefix == "" || prefix == "0x" || prefix == "0X"
    ensures 1 <= |t| <= 16 && LowerAll(t) == Digits(n, |t|)
  {
    a, b := StripIs(raw);
    prefix, t := CoreForm(Strip(raw), LowerAll(Strip(raw)), n);
  }

  lemma LowerPrefix(prefix: string)
    requires prefix == "" || prefix == "0x" || prefix == "0X"
    ensures LowerAll(prefix) == if prefix == "" then "" else "0x"
  {
  }

  // ----- comments and blank lines

  /** A blank line or a comment line. */
  predicate Silent(line: string) {
    var token := Strip(line);
    token == "" || token[0] == '#' || (|token| >= 2 && token[..2] == "//")
  }

  /** Empty, or up to and including a line break. */
  predicate WholeLines(t: string) {
    t == "" || IsBreak(t[|t| - 1])
  }

  lemma {:induction false} LineEndWithin(t: string, u: string)
    requires t != "" && IsBreak(t[|t| - 1])
    ensures LineEnd(t + u) == LineEnd(t) < |t|
  {
    if !IsBreak(t[0]) {
      assert (t + u)[1..] == t[1..] + u;
      LineEndWithin(t[1..], u);
    }
  }

  lemma {:induction false} LinesAppend(t: string, u: string)
    requires WholeLines(t)
    ensures Lines(t + u) == Lines(t) + Lines(u)
    decreases |t|
  {
    if t == "" {
      assert t + u == u;
    } else {
      var n := LineEnd(t);
      LineEndWithin(t, u);
      PartsWithin(t, u, n);
      var rest := t[n + 1..];
      FirstOf(t + u, n, t[..n], rest + u);
      FirstOf(t, n, t[..n], rest);
      LinesAppend(rest, u);
      Prepended(t[..n], Lines(rest), Lines(u));
    }
  }

  lemma Prepended(line: string, a: seq<string>, b: seq<string>)
    ensures [line] + (a + b) == [line] + a + b
  {
  }

  lemma FirstOf(t: string, n: nat, line: string, rest: string)
    requires n == LineEnd(t) < |t| && t[..n] == line && t[n + 1..] == rest
    ensures Lines(t) == [line] + Lines(rest)
  {
  }

  lemma PartsWithin(t: string, u: string, n: nat)
    requires n < |t|
    ensures (t + u)[..n] == t[..n] && (t + u)[n + 1..] == t[n + 1..] + u
  {
  }

  lemma {:induction false} WordsAppend(a: seq<string>, b: seq<string>)
    ensures Words(a + b) == if Words(a).Err? then Words(a) else Continue(Words(a).value, Words(b))
  {
    if a == [] {
      assert a + b == b;
      Continued([], Words(b));
    } else {
      assert (a + b)[1..] == a[1..] + b;
      WordsAppend(a[1..], b);
      if LineToken(a[0]) != "" && NormalizeWord(LineToken(a[0])).Ok? && Words(a[1..]).Ok? {
        var w, ws := NormalizeWord(LineToken(a[0])).value, Words(a[1..]).value;
        ContinuedBoth([w], ws, Words(b));
      }
    }
  }

  lemma ContinuedBoth(a: seq<string>, b: seq<string>, rest: Result<seq<string>, string>)
    ensures Continue(a, Continue(b, rest)) == Continue(a + b, rest)
  {
    if rest.Ok? { assert a + (b + rest.value) == a + b + rest.value; }
  }

  /** Inserting a blank or comment line between two lines, or before the first or after
      the last, changes nothing. */
  lemma SilentLineInserted(before: string, line: string, after: string)
    requires WholeLines(before) && Silent(line)
    requires forall i :: 0 <= i < |line| ==> !IsBreak(line[i])
    ensures ReadMemh(before + (line + "\n" + after)) == ReadMemh(before + after)
  {
    LinesAppend(before, line + "\n" + after);
    LinesAppend(before, after);
    FirstLine(line, after);
    WordsAppend(Lines(before), [line] + Lines(after));
    WordsAppend(Lines(before), Lines(after));
    assert ([line] + Lines(after))[1..] == Lines(after);
  }

  // ----- the program and its memh

  datatype Instruction = NotAnObject | NoWord | WithWord(wordHex: string)

  /** The parts of a program's JSON the check looks at; `instructions` is None when it
      is not a list. */
  datatype Program = Program(fields: set<string>, kind: Option<string>,
                             instructions: Option<seq<Instruction>>, schemaVersion: Option<int>)

  const REQUIRED: set<string> := {"schema_version", "kind", "instructions", "claim_boundary", "target"}
  const PROGRAM_KIND: string := "pccx_v002_runtime_smoke_program"

  predicate Headed(p: Program) {
    && REQUIRED <= p.fields && p.kind == Some(PROGRAM_KIND)
    && p.instructions.Some? && p.instructions.value != [] && p.schemaVersion == Some(1)
  }

  /** The normalised words of the instructions, or None if one is missing or invalid. */
  function ProgramWords(items: seq<Instruction>): Option<seq<string>> {
    if items == [] then Some([])
    else if !items[0].WithWord? || NormalizeWord(items[0].wordHex).Err? then None
    else After([NormalizeWord(items[0].wordHex).value], ProgramWords(items[1..]))
  }

  /** What `validate_program_payload` returns; None is a SystemExit. */
  function Validate(p: Program, memhWords: seq<string>): Option<(nat, seq<string>)> {
    if Headed(p) && ProgramWords(p.instructions.value) == Some(memhWords) then Some((|memhWords|, memhWords)) else None
  }

  /** `validate_program_payload` */
  method ValidateProgramPayload(p: Program, memhWords: seq<string>) returns (r: Option<(nat, seq<string>)>)
    ensures r == Validate(p, memhWords)
  {
    if !(REQUIRED <= p.fields) || p.kind != Some(PROGRAM_KIND) {
      return None;
    }
    if p.instructions.None? || p.instructions.value == [] || p.schemaVersion != Some(1) {
      return None;
    }
    var words := NormalizedWords(p.instructions.value);
    if words.None? || |words.value| != |memhWords| {
      return None;
    }
    var same := Matching(words.value, memhWords);
    return if same then Some((|words.value|, words.value)) else None;
  }

  /** The second loop of `validate_program_payload`. */
  method Matching(a: seq<string>, b: seq<string>) returns (same: bool)
    requires |a| == |b|
    ensures same == (a == b)
  {
    for i := 0 to |a|
      invariant a[..i] == b[..i]
    {
      if a[i] != b[i] {
        return false;
      }
    }
    assert a == a[..|a|] && b == b[..|a|];
    return true;
  }

  /** The first loop of `validate_program_payload`. */
  method NormalizedWords(items: seq<Instruction>) returns (words: Option<seq<string>>)
    ensures words == ProgramWords(items)
  {
    var wordHexes := [];
    var rest := items;
    AfterAll([], ProgramWords(rest));
    while rest != []
      invariant ProgramWords(items) == After(wordHexes, ProgramWords(rest))
    {
      var left := rest[1..];
      if !rest[0].WithWord? {
        return None;
      }
      var w := NormalizeWord(rest[0].wordHex);
      if w.Err? {
        return None;
      }
      AfterOne(wordHexes, w.value, ProgramWords(left));
      wordHexes := wordHexes + [w.value];
      rest := left;
    }
    AfterAll(wordHexes, Some([]));
    return Some(wordHexes);
  }

  function After(words: seq<string>, rest: Option<seq<string>>): Option<seq<string>> {
    if rest.None? then None else Some(words + rest.value)
  }

  lemma AfterAll(words: seq<string>, rest: Option<seq<string>>)
    ensures words == [] ==> After(words, rest) == rest
    ensures rest == Some([]) ==> After(words, rest) == Some(words)
  {
    if rest.Some? {
      assert words == [] ==> words + rest.value == rest.value;
      assert rest.value == [] ==> words + rest.value == words;
    }
  }

  lemma AfterOne(words: seq<string>, w: string, rest: Option<seq<string>>)
    ensures After(words, After([w], rest)) == After(words + [w], rest)
  {
    if rest.Some? { assert words + ([w] + rest.value) == words + [w] + rest.value; }
  }

  /** The program's instructions carry exactly these numbers, in order. */
  ghost predicate Carries(items: seq<Instruction>, ws: seq<Word>) {
    && |items| == |ws|
    && forall i :: 0 <= i < |ws| ==> items[i].WithWord? && ParseHexWord(items[i].wordHex) == Ok(ws[i])
  }

  lemma WordHexInjective(a: Word, b: Word)
    ensures WordHex(a) == WordHex(b) <==> a == b
  {
    if WordHex(a) == WordHex(b) {
      Pow16Value();
      DigitsRead(a, WORD_DIGITS);
      DigitsRead(b, WORD_DIGITS);
      assert WordHex(a)[2..] == Digits(a, WORD_DIGITS) && WordHex(b)[2..] == Digits(b, WORD_DIGITS);
    }
  }

  lemma CarriesHead(items: seq<Instruction>, ws: seq<Word>)
    requires items != [] && ws != []
    ensures Carries(items, ws)
       <==> items[0].WithWord? && ParseHexWord(items[0].wordHex) == Ok(ws[0]) && Carries(items[1..], ws[1..])
  {
    if items[0].WithWord? && ParseHexWord(items[0].wordHex) == Ok(ws[0]) && Carries(items[1..], ws[1..]) {
      forall i | 0 <= i < |ws| ensures items[i].WithWord? && ParseHexWord(items[i].wordHex) == Ok(ws[i]) {
        if i > 0 { assert items[i] == items[1..][i - 1] && ws[i] == ws[1..][i - 1]; }
      }
    }
    if Carries(items, ws) {
      forall i | 0 <= i < |ws[1..]|
        ensures items[1..][i].WithWord? && ParseHexWord(items[1..][i].wordHex) == Ok(ws[1..][i])
      {
        assert items[1..][i] == items[i + 1] && ws[1..][i] == ws[i + 1];
      }
    }
  }

  lemma AfterIs(w: string, rest: Option<seq<string>>, v: string, vs: seq<string>)
    ensures After([w], rest) == Some([v] + vs) <==> w == v && rest == Some(vs)
  {
    if rest.Some? && [w] + rest.value == [v] + vs {
      assert ([w] + rest.value)[0] == ([v] + vs)[0];
      assert ([w] + rest.value)[1..] == rest.value && ([v] + vs)[1..] == vs;
    }
  }

  lemma {:induction false} SameWords(items: seq<Instruction>, ws: seq<Word>)
    ensures ProgramWords(items) == Some(WordHexes(ws)) <==> Carries(items, ws)
  {
    if items != [] && ws != [] {
      SameWords(items[1..], ws[1..]);
      CarriesHead(items, ws);
        if items[0].WithWord? && ParseHexWord(items[0].wordHex).Ok? {
        var n := ParseHexWord(items[0].wordHex).value;
        WordHexInjective(n, ws[0]);
        AfterIs(WordHex(n), ProgramWords(items[1..]), WordHex(ws[0]), WordHexes(ws[1..]));
      }
    }
  }

  /** Every file that reads at all reads as the normalised form of some numbers. */
  lemma {:induction false} WordsAreHexes(lines: seq<string>) returns (ws: seq<Word>)
    requires Words(lines).Ok?
    ensures Words(lines).value == WordHexes(ws)
  {
    if lines == [] {
      ws := [];
    } else {
      ws := WordsAreHexes(lines[1..]);
      if LineToken(lines[0]) != "" {
        ws := [ParseHexWord(LineToken(lines[0])).value] + ws;
          }
    }
  }

  /** A program validates against the memh file of the words `ws` exactly when it is
      well formed and its instructions carry those words, position by position. */
  lemma ValidatesExactlyItsWords(p: Program, ws: seq<Word>, memh: seq<string>)
    requires ReadMemh(WriteMemh(ws)) == Ok(memh)
    ensures Validate(p, memh).Some? <==> Headed(p) && Carries(p.instructions.value, ws)
  {
    RoundTrip(ws);
    if p.instructions.Some? { SameWords(p.instructions.value, ws); }
  }

  /** The same for any file: what it reads as is the normal form of numbers, and the
      program must carry exactly those. */
  lemma ValidatesAgainstAnyFile(p: Program, text: string, memh: seq<string>) returns (ws: seq<Word>)
    requires ReadMemh(text) == Ok(memh)
    ensures memh == WordHexes(ws) && ws != []
    ensures Validate(p, memh).Some? <==> Headed(p) && Carries(p.instructions.value, ws)
  {
    ws := WordsAreHexes(Lines(text));
    if p.instructions.Some? { SameWords(p.instructions.value, ws); }
  }
}
