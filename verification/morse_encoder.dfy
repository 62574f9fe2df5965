/** Text to keying string: the source's `morse_send_char` and `morse_send_string`.

    The encoding is a string over `' '`, `'.'` and `'-'`, one character per
    keying symbol. Every non-space input character becomes a `' '` before each
    of its elements followed by one trailing `' '`; an input space becomes two
    `' '`; the whole text is followed by three `' '`. */
module MorseEncoder {
  import opened MorseTable

  /** A byte of a NUL-terminated C string: any code from 1 to 255. */
  type TextChar = c: char | 0 < c as int < 256 witness 'E'

  /** The three symbols a keying string is made of. */
  predicate IsKeyingSymbol(c: char)
  {
    c == ' ' || c == '.' || c == '-'
  }

  predicate IsTone(c: char)
  {
    c == '.' || c == '-'
  }

  predicate IsKeyingString(s: string)
  {
    forall k :: 0 <= k < |s| ==> IsKeyingSymbol(s[k])
  }

  lemma KeyingConcat(a: string, b: string)
    requires IsKeyingString(a) && IsKeyingString(b)
    ensures IsKeyingString(a + b)
  {
    forall k | 0 <= k < |a + b|
      ensures IsKeyingSymbol((a + b)[k])
    {
      if k >= |a| {
        assert (a + b)[k] == b[k - |a|];
      }
    }
  }

  /** `toupper` in the C locale: only `a` to `z` change. */
  function ToUpper(c: TextChar): (u: TextChar)
    ensures 'a' <= c <= 'z' ==> u as int == c as int - 32
    ensures !('a' <= c <= 'z') ==> u == c
  {
    if 'a' <= c <= 'z' then (c as int - 32) as char else c
  }

  function Mark(dash: bool): char
  {
    if dash then '-' else '.'
  }

  /** The element loop of `morse_send_char`: `n` times, a `' '` and then the
      mark for the low bit of `bits`, shifting `bits` right after each. */
  function Keying(bits: nat, n: nat): (r: string)
    ensures |r| == 2 * n
    decreases n
  {
    if n == 0 then [] else [' ', Mark(bits % 2 == 1)] + Keying(bits / 2, n - 1)
  }

  /** Element `k` of the keying is bit `k` of the pattern, least significant
      first, each element preceded by a space. */
  lemma {:induction false} KeyingElements(bits: nat, n: nat)
    ensures forall k :: 0 <= k < n ==>
      Keying(bits, n)[2 * k] == ' ' && Keying(bits, n)[2 * k + 1] == Mark(BitSet(bits, k))
    decreases n
  {
    if n > 0 {
      var rest := Keying(bits / 2, n - 1);
      KeyingElements(bits / 2, n - 1);
      ShiftBit(bits);
      assert BitSet(bits, 0) == (bits % 2 == 1);
      forall k | 1 <= k < n
        ensures Keying(bits, n)[2 * k] == ' ' && Keying(bits, n)[2 * k + 1] == Mark(BitSet(bits, k))
      {
        assert Keying(bits, n)[2 * k] == rest[2 * (k - 1)];
        assert Keying(bits, n)[2 * k + 1] == rest[2 * (k - 1) + 1];
        assert BitSet(bits / 2, k - 1) == BitSet(bits, k);
      }
    }
  }

  lemma {:induction false} KeyingIsKeyingString(bits: nat, n: nat)
    ensures IsKeyingString(Keying(bits, n))
    decreases n
  {
    if n > 0 {
      KeyingIsKeyingString(bits / 2, n - 1);
      KeyingConcat([' ', Mark(bits % 2 == 1)], Keying(bits / 2, n - 1));
    }
  }

  /** `morse_send_char`: the keying of one (already upper-cased) character.
      A space keys to two spaces; any other character opens with a space
      and a tone and closes with a tone and a space. */
  function EncodeChar(ch: TextChar): (r: string)
    ensures |r| >= 2
    ensures ch == ' ' ==> r == "  "
    ensures ch != ' ' ==> |r| >= 3 && r[0] == ' ' && IsTone(r[1]) && IsTone(r[|r| - 2]) && r[|r| - 1] == ' '
  {
    if ch == ' ' then "  "
    else
      var e := Entry(ch as nat);
      var keys := Keying(PatternBits(e), ElementCount(e));
      KeyingElements(PatternBits(e), ElementCount(e));
      assert keys[2 * (ElementCount(e) - 1) + 1] == Mark(BitSet(PatternBits(e), ElementCount(e) - 1));
      keys + " "
  }

  /** A character keys to keying symbols only. */
  lemma CharIsKeying(ch: TextChar)
    ensures IsKeyingString(EncodeChar(ch))
  {
    if ch != ' ' {
      var e := Entry(ch as nat);
      KeyingIsKeyingString(PatternBits(e), ElementCount(e));
      KeyingConcat(Keying(PatternBits(e), ElementCount(e)), " ");
    }
  }

  /** A non-space character with `n` elements keys to `2 * n + 1` symbols:
      element `k` is a dash exactly when bit `k` of its pattern is set, and
      every element is preceded by one space. */
  lemma CharShape(ch: TextChar)
    requires ch != ' '
    ensures var e := Entry(ch as nat);
      var r := EncodeChar(ch);
      && |r| == 2 * ElementCount(e) + 1
      && r[|r| - 1] == ' '
      && forall k :: 0 <= k < ElementCount(e) ==>
           r[2 * k] == ' ' && r[2 * k + 1] == Mark(BitSet(PatternBits(e), k))
  {
    var e := Entry(ch as nat);
    KeyingElements(PatternBits(e), ElementCount(e));
  }

  /** The loop of `morse_send_string` over the characters of the text. */
  function EncodeChars(text: seq<TextChar>): (r: string)
    ensures |r| >= 2 * |text|
  {
    if text == [] then [] else EncodeChar(ToUpper(text[0])) + EncodeChars(text[1..])
  }

  lemma {:induction false} CharsAreKeying(text: seq<TextChar>)
    ensures IsKeyingString(EncodeChars(text))
    decreases |text|
  {
    if text != [] {
      CharIsKeying(ToUpper(text[0]));
      CharsAreKeying(text[1..]);
      KeyingConcat(EncodeChar(ToUpper(text[0])), EncodeChars(text[1..]));
    }
  }

  /** `morse_send_string`: every character upper-cased and keyed, then the
      three-space word gap. */
  function EncodeText(text: seq<TextChar>): (r: string)
    ensures |r| >= 3 && r[|r| - 3..] == "   "
    ensures text == [] ==> r == "   "
  {
    var body := EncodeChars(text);
    assert forall k :: |body| <= k < |body| + 3 ==> (body + "   ")[k] == ' ';
    body + "   "
  }

  /** The keying of any text holds only the three keying symbols. */
  lemma TextIsKeying(text: seq<TextChar>)
    ensures IsKeyingString(EncodeText(text))
  {
    CharsAreKeying(text);
    KeyingConcat(EncodeChars(text), "   ");
  }

  /** Keying a text piecewise is keying it whole. */
  lemma {:induction false} EncodeCharsAppend(a: seq<TextChar>, b: seq<TextChar>)
    ensures EncodeChars(a + b) == EncodeChars(a) + EncodeChars(b)
    decreases |a|
  {
    if a == [] {
      assert a + b == b;
    } else {
      assert (a + b)[0] == a[0];
      assert (a + b)[1..] == a[1..] + b;
      EncodeCharsAppend(a[1..], b);
    }
  }

  lemma EncodeSingle(c: TextChar)
    ensures EncodeChars([c]) == EncodeChar(ToUpper(c))
  {
    assert [c][1..] == [];
  }

  /** The keying of the first `k + 1` characters is that of the first `k`
      followed by that of character `k`. */
  lemma PrefixStep(text: seq<TextChar>, k: nat)
    requires k < |text|
    ensures EncodeChars(text[..k + 1]) == EncodeChars(text[..k]) + EncodeChar(ToUpper(text[k]))
  {
    assert text[..k + 1] == text[..k] + [text[k]];
    EncodeCharsAppend(text[..k], [text[k]]);
    EncodeSingle(text[k]);
  }

  /** A sequence is its prefix followed by the rest. */
  lemma SplitSeq<T>(t: seq<T>, n: nat)
    requires n <= |t|
    ensures t[..n] + t[n..] == t
  {
  }

  /** The keying of `text` is that of its first `k + 1` characters followed
      by that of the rest. */
  lemma SplitAt(text: seq<TextChar>, k: nat)
    requires k < |text|
    ensures EncodeChars(text) == EncodeChars(text[..k + 1]) + EncodeChars(text[k + 1..])
  {
    var a := text[..k + 1];
    var b := text[k + 1..];
    SplitSeq(text, k + 1);
    EncodeCharsAppend(a, b);
  }

  /** Texts that agree after `toupper` key identically: case does not matter. */
  lemma {:induction false} CaseInsensitive(a: seq<TextChar>, b: seq<TextChar>)
    requires |a| == |b|
    requires forall k :: 0 <= k < |a| ==> ToUpper(a[k]) == ToUpper(b[k])
    ensures EncodeText(a) == EncodeText(b)
  {
    CharsCaseInsensitive(a, b);
  }

  lemma {:induction false} CharsCaseInsensitive(a: seq<TextChar>, b: seq<TextChar>)
    requires |a| == |b|
    requires forall k :: 0 <= k < |a| ==> ToUpper(a[k]) == ToUpper(b[k])
    ensures EncodeChars(a) == EncodeChars(b)
    decreases |a|
  {
    if a != [] {
      assert ToUpper(a[0]) == ToUpper(b[0]);
      assert forall k :: 0 <= k < |a[1..]| ==> a[1..][k] == a[k + 1] && b[1..][k] == b[k + 1];
      CharsCaseInsensitive(a[1..], b[1..]);
    }
  }

  lemma UpperKeepsSpace(c: TextChar)
    ensures (ToUpper(c) == ' ') == (c == ' ')
  {
  }

  /** The keying up to and including a non-space character ends with a
      tone and then a space. */
  lemma KeyingUpTo(text: seq<TextChar>, k: nat)
    requires k < |text| && text[k] != ' '
    ensures var left := EncodeChars(text[..k + 1]);
      |left| >= 2 && IsTone(left[|left| - 2]) && left[|left| - 1] == ' '
  {
    var cur := EncodeChar(ToUpper(text[k]));
    var pre := EncodeChars(text[..k]);
    PrefixStep(text, k);
    UpperKeepsSpace(text[k]);
    var left := pre + cur;
    assert left[|left| - 2] == cur[|cur| - 2];
    assert left[|left| - 1] == cur[|cur| - 1];
  }

  /** The keying of a text around the boundary after its non-space
      character `k`: the keying up to `k`, which ends with a tone and a
      space, then the keying of the rest, then the closing gap. */
  lemma Boundary(text: seq<TextChar>, k: nat)
    requires k + 1 < |text| && text[k] != ' '
    ensures var left := EncodeChars(text[..k + 1]);
      && EncodeText(text) == left + EncodeChars(text[k + 1..]) + "   "
      && |left| >= 2 && IsTone(left[|left| - 2]) && left[|left| - 1] == ' '
  {
    KeyingUpTo(text, k);
    SplitAt(text, k);
  }

  /** The keying of a text that starts with `c`. */
  lemma Unfold(t: seq<TextChar>)
    requires |t| > 0
    ensures EncodeChars(t) == EncodeChar(ToUpper(t[0])) + EncodeChars(t[1..])
  {
  }

  /** The keying of a text that starts with a non-space character opens
      with a space and a tone. */
  lemma LetterStart(t: seq<TextChar>)
    requires |t| > 0 && t[0] != ' '
    ensures var a := EncodeChars(t);
      |a| >= 2 && a[0] == ' ' && IsTone(a[1])
  {
    UpperKeepsSpace(t[0]);
    Unfold(t);
    var head := EncodeChar(ToUpper(t[0]));
    assert EncodeChars(t)[0] == head[0] && EncodeChars(t)[1] == head[1];
  }

  /** The keying of a text that starts with a space and then a non-space
      character opens with three spaces and a tone. */
  lemma SpaceThenLetter(t: seq<TextChar>)
    requires |t| > 1 && t[0] == ' ' && t[1] != ' '
    ensures var a := EncodeChars(t);
      |a| >= 4 && a[0] == ' ' && a[1] == ' ' && a[2] == ' ' && IsTone(a[3])
  {
    Unfold(t);
    var rest := EncodeChars(t[1..]);
    assert t[1..][0] == t[1];
    LetterStart(t[1..]);
    assert EncodeChars(t) == "  " + rest;
    assert EncodeChars(t)[2] == rest[0] && EncodeChars(t)[3] == rest[1];
  }

  /** Adjacent letters: the last tone of one and the first tone of the next
      are separated by exactly two spaces. */
  lemma LetterGap(text: seq<TextChar>, k: nat)
    requires k + 1 < |text| && text[k] != ' ' && text[k + 1] != ' '
    ensures var s := EncodeText(text);
      var p := |EncodeChars(text[..k + 1])|;
      2 <= p && p + 1 < |s| && IsTone(s[p - 2]) && s[p - 1] == ' ' && s[p] == ' ' && IsTone(s[p + 1])
  {
    Boundary(text, k);
    assert text[k + 1..][0] == text[k + 1];
    LetterStart(text[k + 1..]);
    var after := EncodeChars(text[k + 1..]);
    var s := EncodeText(text);
    var left := EncodeChars(text[..k + 1]);
    var p := |left|;
    assert s[p - 2] == left[p - 2] && s[p - 1] == left[p - 1];
    assert s[p] == after[0] && s[p + 1] == after[1];
  }

  /** Letters on either side of one input space: the tones are separated by
      exactly four spaces. */
  lemma WordGap(text: seq<TextChar>, k: nat)
    requires k + 2 < |text| && text[k] != ' ' && text[k + 1] == ' ' && text[k + 2] != ' '
    ensures var s := EncodeText(text);
      var p := |EncodeChars(text[..k + 1])|;
      2 <= p && p + 3 < |s| && IsTone(s[p - 2])
      && s[p - 1] == ' ' && s[p] == ' ' && s[p + 1] == ' ' && s[p + 2] == ' '
      && IsTone(s[p + 3])
  {
    Boundary(text, k);
    assert text[k + 1..][0] == ' ' && text[k + 1..][1] == text[k + 2];
    SpaceThenLetter(text[k + 1..]);
    var after := EncodeChars(text[k + 1..]);
    var s := EncodeText(text);
    var left := EncodeChars(text[..k + 1]);
    var p := |left|;
    assert s[p - 2] == left[p - 2] && s[p - 1] == left[p - 1];
    assert s[p] == after[0] && s[p + 1] == after[1] && s[p + 2] == after[2] && s[p + 3] == after[3];
  }
}
