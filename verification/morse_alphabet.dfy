/** The table read as dot/dash strings, checked against the International
    Morse code alphabet of ITU-R M.1677-1, Part I, section 1. */
module MorseAlphabet {
  import opened MorseTable
  import opened MorseEncoder

  /** `pattern` is the `n` elements that `bits` holds, least significant bit first. */
  predicate Spells(pattern: string, bits: nat, n: nat)
    decreases n
  {
    |pattern| == n
    && (n == 0 || (pattern[0] == Mark(bits % 2 == 1) && Spells(pattern[1..], bits / 2, n - 1)))
  }

  /** The table entry for character code `code` holds the dot/dash string `pattern`. */
  predicate Sends(code: nat, pattern: string)
  {
    var e := Entry(code);
    Spells(pattern, PatternBits(e), ElementCount(e))
  }

  /** Element `k` of the pattern is a dash exactly when bit `k` is set. */
  lemma {:induction false} SpellsBits(pattern: string, bits: nat, n: nat)
    ensures Spells(pattern, bits, n) <==>
      |pattern| == n && forall k :: 0 <= k < n ==> pattern[k] == Mark(BitSet(bits, k))
    decreases n
  {
    if n > 0 && |pattern| == n {
      SpellsBits(pattern[1..], bits / 2, n - 1);
      ShiftBit(bits);
      assert BitSet(bits, 0) == (bits % 2 == 1);
      assert forall k :: 1 <= k < n ==> pattern[1..][k - 1] == pattern[k];
      if forall k :: 0 <= k < n ==> pattern[k] == Mark(BitSet(bits, k)) {
        assert forall k :: 0 <= k < n - 1 ==> pattern[1..][k] == Mark(BitSet(bits / 2, k));
      }
    }
  }

  /** The keying of a dot/dash string: a space before every element and one
      after the last. */
  function Keyed(pattern: string): (r: string)
    ensures |r| == 2 * |pattern| + 1
  {
    if pattern == [] then " " else [' ', pattern[0]] + Keyed(pattern[1..])
  }

  lemma {:induction false} SpellsKeying(pattern: string, bits: nat, n: nat)
    requires Spells(pattern, bits, n)
    ensures Keying(bits, n) + " " == Keyed(pattern)
    decreases n
  {
    if n > 0 {
      SpellsKeying(pattern[1..], bits / 2, n - 1);
    }
  }

  /** A character whose entry spells `pattern` is keyed as `Keyed(pattern)`. */
  lemma SendsKeying(ch: TextChar, pattern: string)
    requires ch != ' ' && Sends(ch as nat, pattern)
    ensures EncodeChar(ch) == Keyed(pattern)
  {
    var e := Entry(ch as nat);
    SpellsKeying(pattern, PatternBits(e), ElementCount(e));
  }

  /** A zero entry, a character the table does not know, sends eight dots. */
  lemma UnknownSendsEightDots(code: nat)
    requires Entry(code) == 0
    ensures Sends(code, "........")
  {
  }

  /** Line feed and carriage return both send `.-.-`. */
  lemma LineEndsMatchTable()
    ensures Sends(10, ".-.-") && Sends(13, ".-.-")
  {
    assert Entry(10) == 266;
    assert Entry(13) == 266;
  }

  lemma LettersAToGMatchItu()
    ensures Sends('A' as nat, ".-")
    ensures Sends('B' as nat, "-...")
    ensures Sends('C' as nat, "-.-.")
    ensures Sends('D' as nat, "-..")
    ensures Sends('E' as nat, ".")
    ensures Sends('F' as nat, "..-.")
    ensures Sends('G' as nat, "--.")
  {
    assert Entry('A' as nat) == 130;
    assert Entry('B' as nat) == 257;
    assert Entry('C' as nat) == 261;
    assert Entry('D' as nat) == 193;
    assert Entry('E' as nat) == 64;
    assert Entry('F' as nat) == 260;
    assert Entry('G' as nat) == 195;
  }

  lemma LettersHToOMatchItu()
    ensures Sends('H' as nat, "....")
    ensures Sends('I' as nat, "..")
    ensures Sends('J' as nat, ".---")
    ensures Sends('K' as nat, "-.-")
    ensures Sends('L' as nat, ".-..")
    ensures Sends('M' as nat, "--")
    ensures Sends('N' as nat, "-.")
    ensures Sends('O' as nat, "---")
  {
    assert Entry('H' as nat) == 256;
    assert Entry('I' as nat) == 128;
    assert Entry('J' as nat) == 270;
    assert Entry('K' as nat) == 197;
    assert Entry('L' as nat) == 258;
    assert Entry('M' as nat) == 131;
    assert Entry('N' as nat) == 129;
    assert Entry('O' as nat) == 199;
  }

  lemma LettersPToWMatchItu()
    ensures Sends('P' as nat, ".--.")
    ensures Sends('Q' as nat, "--.-")
    ensures Sends('R' as nat, ".-.")
    ensures Sends('S' as nat, "...")
    ensures Sends('T' as nat, "-")
    ensures Sends('U' as nat, "..-")
    ensures Sends('V' as nat, "...-")
    ensures Sends('W' as nat, ".--")
  {
    assert Entry('P' as nat) == 262;
    assert Entry('Q' as nat) == 267;
    assert Entry('R' as nat) == 194;
    assert Entry('S' as nat) == 192;
    assert Entry('T' as nat) == 65;
    assert Entry('U' as nat) == 196;
    assert Entry('V' as nat) == 264;
    assert Entry('W' as nat) == 198;
  }

  lemma LettersXToZMatchItu()
    ensures Sends('X' as nat, "-..-")
    ensures Sends('Y' as nat, "-.--")
    ensures Sends('Z' as nat, "--..")
  {
    assert Entry('X' as nat) == 265;
    assert Entry('Y' as nat) == 269;
    assert Entry('Z' as nat) == 259;
  }

  lemma FiguresZeroToFourMatchItu()
    ensures Sends('0' as nat, "-----")
    ensures Sends('1' as nat, ".----")
    ensures Sends('2' as nat, "..---")
    ensures Sends('3' as nat, "...--")
    ensures Sends('4' as nat, "....-")
  {
    assert Entry('0' as nat) == 351;
    assert Entry('1' as nat) == 350;
    assert Entry('2' as nat) == 348;
    assert Entry('3' as nat) == 344;
    assert Entry('4' as nat) == 336;
  }

  lemma FiguresFiveToNineMatchItu()
    ensures Sends('5' as nat, ".....")
    ensures Sends('6' as nat, "-....")
    ensures Sends('7' as nat, "--...")
    ensures Sends('8' as nat, "---..")
    ensures Sends('9' as nat, "----.")
  {
    assert Entry('5' as nat) == 320;
    assert Entry('6' as nat) == 321;
    assert Entry('7' as nat) == 323;
    assert Entry('8' as nat) == 327;
    assert Entry('9' as nat) == 335;
  }

  /** The punctuation signs of the standard that the table holds: inverted
      commas, wait (`&`), apostrophe, left-hand bracket, and (in the next
      lemmas) cross (`+`), comma, full stop, fraction bar, colon, double hyphen
      (`=`) and question mark. */
  lemma QuotesAndBracketMatchItu()
    ensures Sends('"' as nat, ".-..-.")
    ensures Sends('&' as nat, ".-...")
    ensures Sends('\'' as nat, ".----.")
    ensures Sends('(' as nat, "-.--.")
  {
    assert Entry('"' as nat) == 402;
    assert Entry('&' as nat) == 322;
    assert Entry('\'' as nat) == 414;
    assert Entry('(' as nat) == 333;
  }

  lemma CrossAndCommaMatchItu()
    ensures Sends('+' as nat, ".-.-.")
    ensures Sends(',' as nat, "--..--")
  {
    assert Entry('+' as nat) == 330;
    assert Entry(',' as nat) == 435;
  }

  lemma StopsAndQueryMatchItu()
    ensures Sends('.' as nat, ".-.-.-")
    ensures Sends('/' as nat, "-..-.")
    ensures Sends(':' as nat, "---...")
    ensures Sends('=' as nat, "-...-")
    ensures Sends('?' as nat, "..--..")
  {
    assert Entry('.' as nat) == 426;
    assert Entry('/' as nat) == 329;
    assert Entry(':' as nat) == 391;
    assert Entry('=' as nat) == 337;
    assert Entry('?' as nat) == 396;
  }

  /** Two signs the table holds that the standard does not define. */
  lemma ExtraSigns()
    ensures Sends('!' as nat, "-.-.--")
    ensures Sends(';' as nat, "-.-.-.")
  {
    assert Entry('!' as nat) == 437;
    assert Entry(';' as nat) == 405;
  }

  /** Hyphen, right-hand bracket and commercial at have patterns in the
      standard (`-....-`, `-.--.-`, `.--.-.`) but zero entries in the table,
      so they send eight dots instead. */
  lemma SignsMissingFromTable()
    ensures Sends('-' as nat, "........")
    ensures Sends(')' as nat, "........")
    ensures Sends('@' as nat, "........")
  {
    assert Entry('-' as nat) == 0;
    assert Entry(')' as nat) == 0;
    assert Entry('@' as nat) == 0;
  }

  /** A byte the table has no pattern for, such as `[`, sends eight dots; a
      byte above 127 is looked up 128 lower, so 200 sends as `H`. */
  lemma OtherBytes()
    ensures Sends('[' as nat, "........")
    ensures Sends(200, "....")
  {
    assert Entry('[' as nat) == 0;
    assert Entry(200) == 256;
  }

  /** The keying of "SOS": the three letters keyed one after another, then
      the closing gap. */
  lemma SosKeying()
    ensures EncodeText(['S', 'O', 'S']) == Keyed("...") + Keyed("---") + Keyed("...") + "   "
  {
    var t: seq<TextChar> := ['S', 'O', 'S'];
    SendsKeying('S', "...");
    SendsKeying('O', "---");
    Unfold(t[2..]);
    assert t[2..][1..] == [];
    Unfold(t[1..]);
    assert t[1..][1..] == t[2..];
    Unfold(t);
  }

  /** The keying of "T": the element space, the dash, the character's
      trailing space and the closing three spaces. */
  lemma TKeying()
    ensures EncodeText(['T']) == " -    "
  {
    LettersPToWMatchItu();
    SendsKeying('T', "-");
    var t: seq<TextChar> := ['T'];
    Unfold(t);
    assert t[1..] == [];
  }

  /** Lower-case text keys as its upper-case form. */
  lemma LowerSosKeying()
    ensures EncodeText(['s', 'o', 's']) == EncodeText(['S', 'O', 'S'])
  {
    CaseInsensitive(['s', 'o', 's'], ['S', 'O', 'S']);
  }
}
