/** Text helpers the applet relies on: how a JavaScript template literal
    renders a whole number, and how a command line is cut into argument
    words before it is spawned. */
module Strings {

  predicate IsDigit(c: char) {
    '0' <= c <= '9'
  }

  function DigitChar(d: nat): (c: char)
    requires d < 10
    ensures IsDigit(c)
  {
    (('0' as int) + d) as char
  }

  /** The numeric value of one decimal digit (0 for any other character). */
  function DigitValue(c: char): nat {
    if IsDigit(c) then (c as int) - ('0' as int) else 0
  }

  /** The text `${n}` produces for a whole number: its decimal digits,
      most significant first, without leading zeros. */
  function DecimalText(n: nat): (s: string)
    ensures 0 < |s|
    ensures forall i :: 0 <= i < |s| ==> IsDigit(s[i])
    ensures 1 < |s| ==> s[0] != '0'
    decreases n
  {
    if n < 10 then [DigitChar(n)] else DecimalText(n / 10) + [DigitChar(n % 10)]
  }

  /** Reads a string of decimal digits back as a number. */
  function DecimalValue(s: string): nat
    decreases |s|
  {
    if s == [] then 0 else DecimalValue(s[..|s| - 1]) * 10 + DigitValue(s[|s| - 1])
  }

  /** The rendering loses nothing: reading it back gives the number. */
  lemma {:induction false} DecimalRoundTrip(n: nat)
    ensures DecimalValue(DecimalText(n)) == n
    decreases n
  {
    var s := DecimalText(n);
    if n < 10 {
      assert s[..|s| - 1] == [];
    } else {
      DecimalRoundTrip(n / 10);
      assert s[..|s| - 1] == DecimalText(n / 10);
      assert s[|s| - 1] == DigitChar(n % 10);
    }
  }

  /** Distinct numbers render as distinct texts. */
  lemma DecimalTextInjective(m: nat, n: nat)
    requires DecimalText(m) == DecimalText(n)
    ensures m == n
  {
    DecimalRoundTrip(m);
    DecimalRoundTrip(n);
  }

  predicate IsBlank(c: char) {
    c == ' ' || c == '\t' || c == '\n'
  }

  /** A character that the command-line splitter treats as an ordinary
      letter of a word: not a blank, a quote, a backslash or a comment mark. */
  predicate IsPlainChar(c: char) {
    !IsBlank(c) && c != '\'' && c != '"' && c != '\\' && c != '#'
  }

  predicate NoBlank(s: string) {
    forall i :: 0 <= i < |s| ==> !IsBlank(s[i])
  }

  predicate ShellPlain(s: string) {
    forall i :: 0 <= i < |s| ==> IsPlainChar(s[i])
  }

  /** The argument words of a command line made of plain characters and
      blanks: maximal runs of non-blank characters, in order. */
  function Words(s: string): (ws: seq<string>)
    ensures forall k :: 0 <= k < |ws| ==> ws[k] != [] && NoBlank(ws[k])
  {
    WordsAfter(s, "")
  }

  /** The words of `s`, given that `word` has been read so far of a word
      that `s` may continue. */
  function WordsAfter(s: string, word: string): (ws: seq<string>)
    requires NoBlank(word)
    ensures forall k :: 0 <= k < |ws| ==> ws[k] != [] && NoBlank(ws[k])
    decreases |s|
  {
    if s == [] then Flush(word)
    else if IsBlank(s[0]) then Flush(word) + WordsAfter(s[1..], "")
    else WordsAfter(s[1..], word + [s[0]])
  }

  function Flush(word: string): seq<string> {
    if word == [] then [] else [word]
  }

  /** Reading a run of non-blank characters extends the current word. */
  lemma {:induction false} ReadWord(w: string, rest: string, word: string)
    requires NoBlank(w) && NoBlank(word)
    ensures WordsAfter(w + rest, word) == WordsAfter(rest, word + w)
    decreases |w|
  {
    if w == [] {
      assert w + rest == rest;
      assert word + w == word;
    } else {
      assert (w + rest)[0] == w[0];
      assert (w + rest)[1..] == w[1..] + rest;
      ReadWord(w[1..], rest, word + [w[0]]);
      assert word + [w[0]] + w[1..] == word + w;
    }
  }

  /** A non-empty plain word followed by one blank is one argument. */
  lemma ReadArgument(w: string, rest: string)
    requires w != [] && ShellPlain(w)
    ensures WordsAfter(w + " " + rest, "") == [w] + WordsAfter(rest, "")
  {
    assert w + " " + rest == w + (" " + rest);
    ReadWord(w, " " + rest, "");
    assert "" + w == w;
    assert (" " + rest)[1..] == rest;
  }

  /** Three non-empty plain words joined by single spaces split back into
      exactly those three words. */
  lemma {:induction false} WordsOfThree(a: string, b: string, c: string)
    requires a != [] && b != [] && c != []
    requires ShellPlain(a) && ShellPlain(b) && ShellPlain(c)
    ensures Words(a + " " + b + " " + c) == [a, b, c]
  {
    assert a + " " + b + " " + c == a + " " + (b + " " + c);
    ReadArgument(a, b + " " + c);
    ReadArgument(b, c);
    ReadWord(c, "", "");
    assert c + "" == c;
    assert "" + c == c;
  }
}
