/** Text handling shared by the trace converters and the tag lists: numbers, splitting, stripping. */
module Text {
  import opened Common

  predicate IsSpace(c: char) { c == ' ' || '\t' <= c <= '\r' }

  predicate IsDigit(c: char) { '0' <= c <= '9' }

  predicate AllDigits(s: string) { forall i :: 0 <= i < |s| ==> IsDigit(s[i]) }

  // ---------------------------------------------------------------------------------------------
  // Decimal numbers
  // ---------------------------------------------------------------------------------------------

  function DigitChar(d: nat): char
    requires d < 10
  {
    '0' + d as char
  }

  /** A natural number in decimal, without leading zeros. */
  function Str(n: nat): string
  {
    if n < 10 then [DigitChar(n)] else Str(n / 10) + [DigitChar(n % 10)]
  }

  /** The number a string of digits stands for. */
  function NatValue(s: string): nat
    requires AllDigits(s)
  {
    if s == "" then 0 else NatValue(s[..|s| - 1]) * 10 + (s[|s| - 1] - '0') as nat
  }

  function ParseNat(s: string): Option<nat>
  {
    if s != "" && AllDigits(s) then Some(NatValue(s)) else None
  }

  lemma {:induction false} StrIsDecimal(n: nat)
    ensures Str(n) != "" && AllDigits(Str(n)) && NatValue(Str(n)) == n
  {
    if n >= 10 {
      StrIsDecimal(n / 10);
      assert Str(n)[..|Str(n)| - 1] == Str(n / 10);
    } else {
      assert [DigitChar(n)][..0] == "";
    }
  }

  lemma ParseStr(n: nat)
    ensures ParseNat(Str(n)) == Some(n)
  {
    StrIsDecimal(n);
  }

  /** An integer in decimal. */
  function IntStr(n: int): string { if n < 0 then "-" + Str(-n) else Str(n) }

  function Signed(sign: int, n: Option<nat>): Option<int>
  {
    match n case Some(v) => Some(sign * v) case None => None
  }

  /** Reading an integer: an optional sign and digits. */
  function ParseInt(s: string): Option<int>
  {
    if s != "" && s[0] == '-' then Signed(-1, ParseNat(s[1..]))
    else if s != "" && s[0] == '+' then Signed(1, ParseNat(s[1..]))
    else Signed(1, ParseNat(s))
  }

  /** `s` is an optional sign and these digits, and stands for `n`. */
  ghost predicate IsNumeral(s: string, n: int, digits: string)
  {
    && digits != "" && (forall i :: 0 <= i < |digits| ==> '0' <= digits[i] <= '9')
    && (s == digits || s == "+" + digits || s == "-" + digits)
    && n == if s[0] == '-' then 0 - NatValue(digits) else NatValue(digits)
  }

  /** An integer is read from exactly the strings that are an optional sign and at least one digit. */
  lemma {:induction false} ParseIntExactly(s: string, n: int)
    ensures ParseInt(s) == Some(n) <==> exists digits :: IsNumeral(s, n, digits)
  {
    if ParseInt(s) == Some(n) {
      var digits := if s[0] == '-' || s[0] == '+' then s[1..] else s;
      assert s == digits || s == [s[0]] + digits;
      assert IsNumeral(s, n, digits);
    }
    forall digits | IsNumeral(s, n, digits) ensures ParseInt(s) == Some(n) {
      assert AllDigits(digits) && ("+" + digits)[1..] == digits && ("-" + digits)[1..] == digits;
    }
  }

  // ---------------------------------------------------------------------------------------------
  // Splitting at a separator
  // ---------------------------------------------------------------------------------------------

  predicate Free(s: string, c: char) { forall i :: 0 <= i < |s| ==> s[i] != c }

  /** Splitting at every occurrence of `sep`; `part` is the part being read. */
  function SplitFrom(s: string, sep: char, part: string): seq<string>
  {
    if s == "" then [part]
    else if s[0] == sep then [part] + SplitFrom(s[1..], sep, "")
    else SplitFrom(s[1..], sep, part + [s[0]])
  }

  function SplitOn(s: string, sep: char): seq<string> { SplitFrom(s, sep, "") }

  function JoinOn(parts: seq<string>, sep: char): string
  {
    if parts == [] then ""
    else if |parts| == 1 then parts[0]
    else parts[0] + [sep] + JoinOn(parts[1..], sep)
  }

  lemma {:induction false} SplitSkips(a: string, s: string, sep: char, part: string)
    requires Free(a, sep)
    ensures SplitFrom(a + s, sep, part) == SplitFrom(s, sep, part + a)
    decreases |a|
  {
    if a == "" {
      assert a + s == s && part + a == part;
    } else {
      assert (a + s)[1..] == a[1..] + s;
      SplitSkips(a[1..], s, sep, part + [a[0]]);
      assert part + [a[0]] + a[1..] == part + a;
    }
  }

  lemma SplitFirst(a: string, s: string, sep: char)
    requires Free(a, sep)
    ensures SplitOn(a, sep) == [a]
    ensures SplitOn(a + [sep] + s, sep) == [a] + SplitOn(s, sep)
  {
    SplitSkips(a, "", sep, "");
    assert a + "" == a && "" + a == a;
    SplitSkips(a, [sep] + s, sep, "");
    assert a + ([sep] + s) == a + [sep] + s && ([sep] + s)[1..] == s;
  }

  /** Splitting undoes joining when no part contains the separator. */
  lemma {:induction false} SplitJoined(parts: seq<string>, sep: char)
    requires parts != [] && forall i :: 0 <= i < |parts| ==> Free(parts[i], sep)
    ensures SplitOn(JoinOn(parts, sep), sep) == parts
    decreases |parts|
  {
    if |parts| == 1 {
      SplitFirst(parts[0], "", sep);
    } else {
      SplitFirst(parts[0], JoinOn(parts[1..], sep), sep);
      SplitJoined(parts[1..], sep);
    }
  }

  // ---------------------------------------------------------------------------------------------
  // Stripping white space
  // ---------------------------------------------------------------------------------------------

  function StripLeft(s: string): string { if s != "" && IsSpace(s[0]) then StripLeft(s[1..]) else s }

  function StripRight(s: string): string
  {
    if s != "" && IsSpace(s[|s| - 1]) then StripRight(s[..|s| - 1]) else s
  }

  function Strip(s: string): string { StripRight(StripLeft(s)) }

  /** White space: blank, tab, line feed, vertical tab, form feed and carriage return. */
  ghost predicate AllWhite(s: string)
  {
    forall i :: 0 <= i < |s| ==> s[i] in {' ', '\t', '\n', '\U{000B}', '\U{000C}', '\r'}
  }

  /** Stripping takes away white space at both ends, and all of it. */
  ghost predicate Stripped(s: string, a: string, r: string, b: string)
  {
    && s == a + r + b && AllWhite(a) && AllWhite(b)
    && (r == "" ==> b == "") && (r != "" ==> !AllWhite([r[0]]) && !AllWhite([r[|r| - 1]]))
  }

  lemma {:induction false} StripIs(s: string) returns (a: string, b: string)
    ensures Stripped(s, a, Strip(s), b)
  {
    var t := StripLeft(s);
    a := StripLeftIs(s);
    b := StripRightIs(t);
    assert a + (StripRight(t) + b) == a + StripRight(t) + b;
  }

  lemma {:induction false} StripLeftIs(s: string) returns (a: string)
    ensures s == a + StripLeft(s) && AllWhite(a) && (StripLeft(s) != "" ==> !AllWhite([StripLeft(s)[0]]))
    decreases |s|
  {
    a := "";
    if s != "" && IsSpace(s[0]) {
      a := StripLeftIs(s[1..]);
      a := [s[0]] + a;
      assert s == [s[0]] + s[1..];
    }
    assert StripLeft(s) != "" ==> [StripLeft(s)[0]][0] == StripLeft(s)[0];
  }

  lemma {:induction false} StripRightIs(s: string) returns (b: string)
    requires s != "" ==> !AllWhite([s[0]])
    ensures var r := StripRight(s);
      s == r + b && AllWhite(b) && (r == "" ==> b == "") && (r != "" ==> r[0] == s[0] && !AllWhite([r[|r| - 1]]))
    decreases |s|
  {
    b := "";
    if s != "" && IsSpace(s[|s| - 1]) {
      var t := s[..|s| - 1];
      assert [s[0]][0] == s[0] && t != "";
      b := StripRightIs(t);
      b := b + [s[|s| - 1]];
      assert s == t + [s[|s| - 1]];
    }
    assert StripRight(s) != "" ==> [StripRight(s)[|StripRight(s)| - 1]][0] == StripRight(s)[|StripRight(s)| - 1];
  }

  predicate NoSpace(s: string) { forall i :: 0 <= i < |s| ==> !IsSpace(s[i]) }

  lemma StripLine(s: string)
    requires NoSpace(s)
    ensures Strip(s) == s && Strip(s + "\n") == s
  {
    if s == "" {
      assert s + "\n" == "\n";
      assert StripLeft("\n") == StripLeft("\n"[1..]) == "";
    } else {
      assert (s + "\n")[0] == s[0];
      assert (s + "\n")[..|s|] == s;
    }
  }

  lemma IntStrShape(n: int)
    ensures n >= 0 ==> AllDigits(IntStr(n)) && IntStr(n) != ""
    ensures n < 0 ==> IntStr(n)[0] == '-'
    ensures NoSpace(IntStr(n)) && Free(IntStr(n), ',')
  {
    StrIsDecimal(if n < 0 then -n else n);
  }

  lemma ParseIntStr(n: int)
    ensures ParseInt(IntStr(n)) == Some(n)
  {
    var m := if n < 0 then -n else n;
    StrIsDecimal(m);
    ParseStr(m);
    assert n < 0 ==> IntStr(n)[1..] == Str(m);
    assert n >= 0 ==> IsDigit(IntStr(n)[0]);
  }

  // ---------------------------------------------------------------------------------------------
  // Splitting at white space
  // ---------------------------------------------------------------------------------------------

  predicate IsWord(w: string) { w != "" && NoSpace(w) }

  /** Splitting at runs of white space; `word` is the word being read. */
  function WordsFrom(s: string, word: string): seq<string>
  {
    if s == "" then (if word == "" then [] else [word])
    else if IsSpace(s[0]) then (if word == "" then [] else [word]) + WordsFrom(s[1..], "")
    else WordsFrom(s[1..], word + [s[0]])
  }

  function Words(s: string): seq<string> { WordsFrom(s, "") }

  lemma {:induction false} WordsSkip(w: string, rest: string, word: string)
    requires NoSpace(w)
    ensures WordsFrom(w + rest, word) == WordsFrom(rest, word + w)
    decreases |w|
  {
    if w == "" {
      assert w + rest == rest && word + w == word;
    } else {
      assert (w + rest)[1..] == w[1..] + rest;
      WordsSkip(w[1..], rest, word + [w[0]]);
      assert word + [w[0]] + w[1..] == word + w;
    }
  }

  /** Words joined by blanks are read back. */
  lemma {:induction false} WordsJoined(ws: seq<string>)
    requires forall i :: 0 <= i < |ws| ==> IsWord(ws[i])
    ensures Words(JoinOn(ws, ' ')) == ws
    decreases |ws|
  {
    if |ws| == 1 {
      WordsSkip(ws[0], "", "");
      assert ws[0] + "" == ws[0] && "" + ws[0] == ws[0];
    } else if |ws| > 1 {
      var tail := " " + JoinOn(ws[1..], ' ');
      WordsSkip(ws[0], tail, "");
      assert ws[0] + tail == JoinOn(ws, ' ') && "" + ws[0] == ws[0];
      WordsJoined(ws[1..]);
      assert tail[1..] == JoinOn(ws[1..], ' ');
    }
  }

  lemma {:induction false} WordsAreWords(s: string, word: string)
    requires NoSpace(word)
    ensures forall w :: w in WordsFrom(s, word) ==> IsWord(w)
    decreases |s|
  {
    if s != "" {
      if IsSpace(s[0]) {
        WordsAreWords(s[1..], "");
      } else {
        WordsAreWords(s[1..], word + [s[0]]);
      }
    }
  }
}
