/** Other spellings that mean the same: blanks and a sign in an index, and a first block without its slash. */
module QmlPathSpelling {
  import opened Common
  import opened QmlPathSyntax
  import opened QmlPathRoundTrip

  predicate IsSpace(c: char) { c as int == 32 || 9 <= c as int <= 13 }

  ghost predicate Blank(s: string) { forall c <- s :: IsSpace(c) }

  lemma {:induction false} TrimLeftPadded(front: string, s: string)
    requires Blank(front)
    ensures TrimLeft(front + s) == TrimLeft(s)
    decreases |front|
  {
    if front == "" {
      assert front + s == s;
    } else {
      assert IsSpace(front[0]) && (front + s)[1..] == front[1..] + s;
      TrimLeftPadded(front[1..], s);
    }
  }

  lemma {:induction false} TrimRightPadded(s: string, back: string)
    requires Blank(back)
    ensures TrimRight(s + back) == TrimRight(s)
    decreases |back|
  {
    if back == "" {
      assert s + back == s;
    } else {
      var n := |back| - 1;
      assert IsSpace(back[n]) && (s + back)[..|s + back| - 1] == s + back[..n];
      TrimRightPadded(s, back[..n]);
    }
  }

  lemma PaddedTrims(front: string, s: string, back: string)
    requires Blank(front) && Blank(back) && s != "" && s[0] !in BLANKS && s[|s| - 1] !in BLANKS
    ensures TrimRight(TrimLeft(front + s + back)) == s
  {
    assert front + s + back == front + (s + back);
    TrimLeftPadded(front, s + back);
    assert (s + back)[0] == s[0];
    TrimRightPadded(s, back);
  }

  lemma UnsignedReads(text: string, n: nat)
    requires n <= INT_MAX && TrimRight(TrimLeft(text)) == Decimal(n)
    ensures ToInt(text) == Some(n)
  {
    DecimalDigits(n);
    assert IsDigit(Decimal(n)[0]);
  }

  lemma PlusReads(text: string, n: nat)
    requires n <= INT_MAX && TrimRight(TrimLeft(text)) == "+" + Decimal(n)
    ensures ToInt(text) == Some(n)
  {
    DecimalDigits(n);
    assert ("+" + Decimal(n))[1..] == Decimal(n);
  }

  lemma NoBlankEnds(sign: string, n: nat)
    requires sign == "" || sign == "+"
    ensures var s := sign + Decimal(n); s != "" && s[0] !in BLANKS && s[|s| - 1] !in BLANKS
  {
    var d := Decimal(n);
    DecimalDigits(n);
    assert IsDigit(d[0]) && IsDigit(d[|d| - 1]);
    assert (sign + d)[|sign + d| - 1] == d[|d| - 1];
  }

  /** An index may have a plus sign, and blanks around it. */
  lemma PaddedIndexReads(front: string, sign: string, n: nat, back: string)
    requires Blank(front) && Blank(back) && (sign == "" || sign == "+") && n <= INT_MAX
    ensures ReadIndex(front + (sign + Decimal(n)) + back) == Some(Index(n))
  {
    var d, s := Decimal(n), sign + Decimal(n);
    NoBlankEnds(sign, n);
    PaddedTrims(front, s, back);
    if sign == "" {
      assert s == d;
      UnsignedReads(front + s + back, n);
    } else {
      PlusReads(front + s + back, n);
    }
  }

  /** The first slash may be left out. */
  lemma FirstSlashOptional(s: string)
    requires s != "" && s[0] != '/'
    ensures Read("/" + s) == Read(s)
  {
    assert ("/" + s)[1..] == s;
    assert ReadBlock("/" + s) == ReadBody(false, s);
  }
}
