/**
 * The cohort-list text field: a comma-separated list of applicant counts.
 *
 * Parsing splits the text at every comma, strips Python whitespace from both
 * ends of each piece and converts each piece with `int`. A piece that is not
 * an optional sign followed by decimal digits (an empty piece included) makes
 * the whole conversion fail with the first such piece, as the list
 * comprehension raises on it. `Format` is the inverse used to state the
 * round trip.
 */
module Cohorts {

  datatype ParseError = InvalidLiteral(piece: string)

  datatype Result<T> = Ok(value: T) | Err(error: ParseError)

  // ---------------------------------------------------------------- splitting

  /** Number of commas in s. */
  function Commas(s: string): nat
  {
    if |s| == 0 then 0 else (if s[0] == ',' then 1 else 0) + Commas(s[1..])
  }

  /** Pieces of s between commas, in order; `str.split(",")`. */
  function Split(s: string): (pieces: seq<string>)
    ensures |pieces| == Commas(s) + 1
  {
    if |s| == 0 then [""]
    else
      assert s == [s[0]] + s[1..];
      if s[0] == ',' then [""] + Split(s[1..])
      else [[s[0]] + Split(s[1..])[0]] + Split(s[1..])[1..]
  }

  /** No piece contains a comma. */
  lemma {:induction false} SplitPiecesCommaFree(s: string)
    ensures forall i :: 0 <= i < |Split(s)| ==> ',' !in Split(s)[i]
  {
    if |s| > 0 {
      SplitPiecesCommaFree(s[1..]);
      var rest := Split(s[1..]);
      if s[0] != ',' {
        assert ',' !in [s[0]] + rest[0];
        assert forall i :: 1 <= i < |Split(s)| ==> Split(s)[i] == rest[i];
      } else {
        assert forall i :: 1 <= i < |Split(s)| ==> Split(s)[i] == rest[i - 1];
      }
    }
  }

  /** Pieces glued back together with commas; `",".join(pieces)`. */
  function Join(pieces: seq<string>): string
    requires |pieces| >= 1
  {
    if |pieces| == 1 then pieces[0] else pieces[0] + "," + Join(pieces[1..])
  }

  /** Splitting loses nothing: gluing the pieces back gives the original text. */
  lemma {:induction false} JoinSplit(s: string)
    ensures Join(Split(s)) == s
  {
    if |s| > 0 {
      JoinSplit(s[1..]);
      var rest := Split(s[1..]);
      if s[0] != ',' {
        if |rest| > 1 {
          assert Join(rest) == rest[0] + "," + Join(rest[1..]);
          assert rest[1..] == Split(s)[1..];
        }
      }
    }
  }

  /** Splitting text that begins with a comma-free piece and a comma. */
  lemma {:induction false} SplitCons(p: string, rest: string)
    requires ',' !in p
    ensures Split(p + "," + rest) == [p] + Split(rest)
  {
    if |p| == 0 {
      assert p + "," + rest == [','] + rest;
    } else {
      SplitCons(p[1..], rest);
      assert (p + "," + rest)[1..] == p[1..] + "," + rest;
      assert [p[0]] + p[1..] == p;
    }
  }

  /** Splitting undoes joining comma-free pieces. */
  lemma {:induction false} SplitJoin(pieces: seq<string>)
    requires |pieces| >= 1
    requires forall i :: 0 <= i < |pieces| ==> ',' !in pieces[i]
    ensures Split(Join(pieces)) == pieces
  {
    if |pieces| == 1 {
      SplitNoComma(pieces[0]);
    } else {
      SplitJoin(pieces[1..]);
      SplitCons(pieces[0], Join(pieces[1..]));
    }
  }

  /** Text without a comma is a single piece. */
  lemma {:induction false} SplitNoComma(p: string)
    requires ',' !in p
    ensures Split(p) == [p]
  {
    if |p| > 0 {
      SplitNoComma(p[1..]);
      assert p == [p[0]] + p[1..];
    }
  }

  // ---------------------------------------------------------------- stripping

  /** The characters Python's `str.isspace` accepts. */
  predicate IsSpace(c: char)
  {
    c == ' ' || ('\t' <= c <= '\r') || ('\U{1C}' <= c <= '\U{1F}')
    || c == '\U{85}' || c == '\U{A0}' || c == '\U{1680}'
    || ('\U{2000}' <= c <= '\U{200A}') || c == '\U{2028}' || c == '\U{2029}'
    || c == '\U{202F}' || c == '\U{205F}' || c == '\U{3000}'
  }

  predicate AllSpace(s: string)
  {
    forall i :: 0 <= i < |s| ==> IsSpace(s[i])
  }

  /** s with leading whitespace removed. */
  function TrimStart(s: string): (r: string)
    ensures r == [] || !IsSpace(r[0])
  {
    if |s| > 0 && IsSpace(s[0]) then TrimStart(s[1..]) else s
  }

  /** s with trailing whitespace removed. */
  function TrimEnd(s: string): (r: string)
    ensures r == [] || !IsSpace(r[|r| - 1])
  {
    if |s| > 0 && IsSpace(s[|s| - 1]) then TrimEnd(s[..|s| - 1]) else s
  }

  /** TrimStart removes a whitespace prefix and nothing else. */
  lemma {:induction false} TrimStartRemovesSpace(s: string)
    ensures |TrimStart(s)| <= |s|
    ensures s == s[..|s| - |TrimStart(s)|] + TrimStart(s)
    ensures AllSpace(s[..|s| - |TrimStart(s)|])
  {
    if |s| > 0 && IsSpace(s[0]) {
      TrimStartRemovesSpace(s[1..]);
      var k := |s| - |TrimStart(s)|;
      assert s[..k] == [s[0]] + s[1..][..k - 1];
    }
  }

  /** TrimEnd removes a whitespace suffix and nothing else. */
  lemma {:induction false} TrimEndRemovesSpace(s: string)
    ensures |TrimEnd(s)| <= |s|
    ensures s == TrimEnd(s) + s[|TrimEnd(s)|..]
    ensures AllSpace(s[|TrimEnd(s)|..])
  {
    if |s| > 0 && IsSpace(s[|s| - 1]) {
      TrimEndRemovesSpace(s[..|s| - 1]);
      var r := TrimEnd(s);
      assert s[|r|..] == s[..|s| - 1][|r|..] + [s[|s| - 1]];
    }
  }

  /** `str.strip()`: s without whitespace at either end. */
  function Strip(s: string): (r: string)
    ensures r == [] || (!IsSpace(r[0]) && !IsSpace(r[|r| - 1]))
  {
    TrimEndRemovesSpace(TrimStart(s));
    TrimEnd(TrimStart(s))
  }

  /** Strip removes whitespace at both ends and keeps the middle: s == pre + Strip(s) + post. */
  lemma StripRemovesSpace(s: string)
    ensures exists i, j :: (0 <= i <= j <= |s| && s[i..j] == Strip(s)
      && AllSpace(s[..i]) && AllSpace(s[j..]))
  {
    var t := TrimStart(s);
    TrimStartRemovesSpace(s);
    TrimEndRemovesSpace(t);
    var i := |s| - |t|;
    var j := i + |Strip(s)|;
    assert s[i..j] == t[..|Strip(s)|];
    assert s[j..] == t[|Strip(s)|..];
  }

  /** Whitespace around a piece is ignored: padding a stripped piece strips back to it. */
  lemma StripPadded(pre: string, p: string, post: string)
    requires AllSpace(pre) && AllSpace(post)
    requires p == [] || (!IsSpace(p[0]) && !IsSpace(p[|p| - 1]))
    ensures Strip(pre + p + post) == p
  {
    assert pre + p + post == pre + (p + post);
    if p == [] {
      assert p + post == post;
      TrimStartPadded(pre, post);
      assert TrimEnd([]) == [];
    } else {
      assert (p + post)[0] == p[0];
      TrimStartPadded(pre, p + post);
      assert !AllSpace(p + post);
      TrimEndPadded(p, post);
    }
  }

  lemma {:induction false} TrimStartPadded(pre: string, t: string)
    requires AllSpace(pre)
    requires t == [] || !IsSpace(t[0]) || AllSpace(t)
    ensures TrimStart(pre + t) == if AllSpace(t) then [] else t
  {
    if |pre| > 0 {
      assert (pre + t)[1..] == pre[1..] + t;
      TrimStartPadded(pre[1..], t);
    } else if |t| > 0 && AllSpace(t) {
      assert pre + t == t;
      TrimStartPadded([], t[1..]);
      assert "" + t[1..] == t[1..];
    }
  }

  lemma {:induction false} TrimEndPadded(t: string, post: string)
    requires AllSpace(post)
    requires t == [] || !IsSpace(t[|t| - 1])
    ensures TrimEnd(t + post) == t
  {
    if |post| > 0 {
      assert (t + post)[..|t + post| - 1] == t + post[..|post| - 1];
      TrimEndPadded(t, post[..|post| - 1]);
    } else {
      assert t + post == t;
    }
  }

  // ---------------------------------------------------------------- integers

  predicate IsDigit(c: char)
  {
    '0' <= c <= '9'
  }

  predicate AllDigits(s: string)
  {
    forall i :: 0 <= i < |s| ==> IsDigit(s[i])
  }

  /** Value of a run of decimal digits, most significant first. */
  function DigitsValue(s: string): (n: nat)
    requires AllDigits(s)
  {
    if |s| == 0 then 0
    else 10 * DigitsValue(s[..|s| - 1]) + (s[|s| - 1] as int - '0' as int)
  }

  /** `int(s)` for an already stripped s: an optional sign, then one or more digits. */
  function ParseInt(s: string): (r: Result<int>)
    ensures r.Err? ==> r.error == InvalidLiteral(s)
  {
    if |s| > 0 && AllDigits(s) then Ok(DigitsValue(s))
    else if |s| > 1 && s[0] == '+' && AllDigits(s[1..]) then Ok(DigitsValue(s[1..]))
    else if |s| > 1 && s[0] == '-' && AllDigits(s[1..]) then Ok(0 - DigitsValue(s[1..]))
    else Err(InvalidLiteral(s))
  }

  /** `int` accepts exactly an optional sign followed by at least one digit, and the sign is honoured. */
  lemma ParseIntAccepts(s: string)
    ensures ParseInt(s).Ok? <==> (|s| > 0 && AllDigits(s)) || (|s| > 1 && s[0] in "+-" && AllDigits(s[1..]))
    ensures ParseInt(s).Ok? && s[0] == '-' ==> ParseInt(s).value <= 0
    ensures ParseInt(s).Ok? && s[0] != '-' ==> ParseInt(s).value >= 0
  {
  }

  /** An explicit `+` and leading zeros do not change the value, and `-` negates it. */
  lemma ParseIntSignsAndZeros(d: string)
    requires |d| >= 1 && AllDigits(d)
    ensures ParseInt(d) == Ok(DigitsValue(d))
    ensures ParseInt("+" + d) == ParseInt(d)
    ensures ParseInt("-" + d) == Ok(0 - DigitsValue(d))
    ensures ParseInt("0" + d) == ParseInt(d)
  {
    PlusSign(d);
    MinusSign(d);
    LeadingZero(d);
  }

  lemma PlusSign(d: string)
    requires |d| >= 1 && AllDigits(d)
    ensures ParseInt("+" + d) == Ok(DigitsValue(d))
  {
    SignedDigits('+', d);
    assert "+" + d == ['+'] + d;
  }

  lemma MinusSign(d: string)
    requires |d| >= 1 && AllDigits(d)
    ensures ParseInt("-" + d) == Ok(0 - DigitsValue(d))
  {
    SignedDigits('-', d);
    assert "-" + d == ['-'] + d;
  }

  /** A sign followed by digits is not all digits, and its digits are the rest. */
  lemma SignedDigits(sign: char, d: string)
    requires sign in "+-" && |d| >= 1 && AllDigits(d)
    ensures |[sign] + d| > 1 && ([sign] + d)[0] == sign && ([sign] + d)[1..] == d
    ensures !AllDigits([sign] + d)
  {
    assert !IsDigit(([sign] + d)[0]);
  }

  /** A leading zero adds nothing to the value of a run of digits. */
  lemma {:induction false} LeadingZero(d: string)
    requires AllDigits(d)
    ensures AllDigits("0" + d) && DigitsValue("0" + d) == DigitsValue(d)
  {
    if |d| > 0 {
      LeadingZero(d[..|d| - 1]);
      assert ("0" + d)[..|"0" + d| - 1] == "0" + d[..|d| - 1];
    }
  }

  /** Decimal digits of n, no leading zeros; `str(n)` for n >= 0. */
  function Digits(n: nat): (s: string)
    ensures |s| >= 1
  {
    if n < 10 then [('0' as int + n) as char]
    else Digits(n / 10) + [('0' as int + n % 10) as char]
  }

  /** The digits of n are digits, and read back as n. */
  lemma {:induction false} DigitsValueOfDigits(n: nat)
    ensures AllDigits(Digits(n))
    ensures DigitsValue(Digits(n)) == n
  {
    if n >= 10 {
      DigitsValueOfDigits(n / 10);
      var s := Digits(n);
      assert s[..|s| - 1] == Digits(n / 10);
    }
  }

  /** `str(n)`: a minus sign for negative n, then the digits. */
  function IntText(n: int): (s: string)
    ensures |s| >= 1 && (s[0] == '-' || IsDigit(s[0])) && IsDigit(s[|s| - 1])
  {
    DigitsValueOfDigits(if n < 0 then -n else n);
    if n < 0 then "-" + Digits(-n) else Digits(n)
  }

  /** `int` reads back what `str` writes. */
  lemma ParseIntText(n: int)
    ensures ParseInt(IntText(n)) == Ok(n)
  {
    if n < 0 {
      DigitsValueOfDigits(-n);
      assert IntText(n)[1..] == Digits(-n);
    } else {
      DigitsValueOfDigits(n);
    }
  }

  // ---------------------------------------------------------------- the list

  /** `int(x.strip())` for one piece x. */
  function Convert(piece: string): (r: Result<int>)
    ensures r.Err? ==> r.error == InvalidLiteral(Strip(piece))
  {
    ParseInt(Strip(piece))
  }

  /** The conversion of every piece, in order. */
  function ConvertAll(pieces: seq<string>): (rs: seq<Result<int>>)
    ensures |rs| == |pieces|
    ensures forall i :: 0 <= i < |pieces| ==> rs[i] == Convert(pieces[i])
  {
    if |pieces| == 0 then [] else [Convert(pieces[0])] + ConvertAll(pieces[1..])
  }

  /** All values when every conversion succeeded; otherwise the first error. */
  function Collect(rs: seq<Result<int>>): (r: Result<seq<int>>)
    ensures r.Ok? <==> forall i :: 0 <= i < |rs| ==> rs[i].Ok?
    ensures r.Ok? ==> |r.value| == |rs|
    ensures r.Ok? ==> forall i :: 0 <= i < |rs| ==> rs[i] == Ok(r.value[i])
  {
    if |rs| == 0 then Ok([])
    else match rs[0]
      case Err(e) => Err(e)
      case Ok(v) =>
        match Collect(rs[1..])
        case Err(e) => Err(e)
        case Ok(vs) => Ok([v] + vs)
  }

  /** The error reported is the one of the first conversion that failed. */
  lemma {:induction false} CollectFirstError(rs: seq<Result<int>>, k: nat)
    requires k < |rs| && rs[k].Err?
    requires forall i :: 0 <= i < k ==> rs[i].Ok?
    ensures Collect(rs) == Err(rs[k].error)
  {
    if k > 0 {
      CollectFirstError(rs[1..], k - 1);
    }
  }

  /** `[int(x.strip()) for x in text.split(",")]`. */
  function ParseCohorts(text: string): (r: Result<seq<int>>)
    ensures r.Ok? ==> |r.value| == Commas(text) + 1
    ensures r.Ok? ==> forall i :: 0 <= i < Commas(text) + 1 ==> Convert(Split(text)[i]).Ok?
    ensures (forall i :: 0 <= i < Commas(text) + 1 ==> Convert(Split(text)[i]).Ok?) ==> r.Ok?
    ensures r.Ok? ==> forall i :: 0 <= i < |r.value| ==> Convert(Split(text)[i]) == Ok(r.value[i])
  {
    var pieces := Split(text);
    var rs := ConvertAll(pieces);
    assert forall i :: 0 <= i < |pieces| ==> (rs[i].Ok? <==> Convert(pieces[i]).Ok?);
    Collect(rs)
  }

  /** A piece that is not an integer makes the whole list fail, naming the first such piece. */
  lemma ParseCohortsError(text: string, k: nat)
    requires k < Commas(text) + 1 && Convert(Split(text)[k]).Err?
    requires forall i :: 0 <= i < k ==> Convert(Split(text)[i]).Ok?
    ensures ParseCohorts(text) == Err(InvalidLiteral(Strip(Split(text)[k])))
  {
    CollectFirstError(ConvertAll(Split(text)), k);
  }

  /** An empty or blank entry is not skipped: it is an error naming the empty literal. */
  lemma BlankPieceRejected(p: string)
    requires AllSpace(p)
    ensures Convert(p) == Err(InvalidLiteral(""))
  {
    StripPadded(p, "", "");
    assert p + "" + "" == p;
  }

  /** A doubled comma in the list makes the whole list fail. */
  lemma DoubledCommaRejected()
    ensures ParseCohorts("100,,500") == Err(InvalidLiteral(""))
  {
    DoubledCommaPieces();
    SmallDefaultDigits();
    ConvertIntText(100);
    BlankSecondPiece("100,,500");
  }

  /** A list whose first entry converts and whose second is blank fails on the second. */
  lemma BlankSecondPiece(text: string)
    requires Commas(text) >= 1
    requires Convert(Split(text)[0]).Ok? && AllSpace(Split(text)[1])
    ensures ParseCohorts(text) == Err(InvalidLiteral(""))
  {
    var blank := Split(text)[1];
    BlankPieceRejected(blank);
    assert Strip(blank) == "";
    assert forall i :: 0 <= i < 1 ==> Convert(Split(text)[i]).Ok?;
    ParseCohortsError(text, 1);
  }

  lemma DoubledCommaPieces()
    ensures Split("100,,500") == ["100", "", "500"]
  {
    var ps := ["100", "", "500"];
    assert ps[1..] == ["", "500"];
    assert ps[1..][1..] == ["500"];
    assert Join(ps) == "100,,500";
    SplitJoin(ps);
  }

  /** Each cohort size written out with `IntText`. */
  function Texts(xs: seq<int>): (ts: seq<string>)
    ensures |ts| == |xs|
    ensures forall i :: 0 <= i < |xs| ==> ts[i] == IntText(xs[i])
  {
    if |xs| == 0 then [] else [IntText(xs[0])] + Texts(xs[1..])
  }

  /** The cohort list written out as text, entries separated by commas. */
  function Format(xs: seq<int>): string
    requires |xs| >= 1
  {
    Join(Texts(xs))
  }

  /** One written-out cohort size has no comma, no surrounding space, and converts back. */
  lemma ConvertIntText(n: int)
    ensures ',' !in IntText(n)
    ensures Convert(IntText(n)) == Ok(n)
  {
    var t := IntText(n);
    StripPadded([], t, []);
    assert [] + t + [] == t;
    DigitsValueOfDigits(if n < 0 then -n else n);
    assert ',' !in Digits(if n < 0 then -n else n);
    ParseIntText(n);
  }

  /** When every piece converts to the matching value, the list converts to the values. */
  lemma CollectAllOk(pieces: seq<string>, xs: seq<int>)
    requires |pieces| == |xs|
    requires forall i :: 0 <= i < |xs| ==> Convert(pieces[i]) == Ok(xs[i])
    ensures Collect(ConvertAll(pieces)) == Ok(xs)
  {
    var r := Collect(ConvertAll(pieces));
    assert r.Ok?;
    assert r.value == xs;
  }

  /** Parsing a formatted cohort list gives back the list. */
  lemma ParseFormat(xs: seq<int>)
    requires |xs| >= 1
    ensures ParseCohorts(Format(xs)) == Ok(xs)
  {
    var pieces := Texts(xs);
    forall i | 0 <= i < |pieces| ensures ',' !in pieces[i] && Convert(pieces[i]) == Ok(xs[i]) {
      ConvertIntText(xs[i]);
    }
    SplitJoin(pieces);
    CollectAllOk(pieces, xs);
  }

  /** The text field's default value parses to the seven default cohorts. */
  lemma DefaultCohorts()
    ensures ParseCohorts("100,500,1000,5000,10000,20000,50000")
         == Ok([100, 500, 1000, 5000, 10000, 20000, 50000])
  {
    var xs := [100, 500, 1000, 5000, 10000, 20000, 50000];
    DefaultTexts();
    DefaultJoin();
    ParseFormat(xs);
  }

  lemma DefaultJoin()
    ensures Join(["100", "500", "1000", "5000", "10000", "20000", "50000"])
         == "100,500,1000,5000,10000,20000,50000"
  {
    DefaultJoinTail();
    var ps := ["100", "500", "1000", "5000", "10000", "20000", "50000"];
    assert ps[1..] == ["500", "1000", "5000", "10000", "20000", "50000"];
    assert ps[1..][1..] == ["1000", "5000", "10000", "20000", "50000"];
    assert ps[1..][1..][1..] == ["5000", "10000", "20000", "50000"];
  }

  lemma DefaultJoinTail()
    ensures Join(["5000", "10000", "20000", "50000"]) == "5000,10000,20000,50000"
  {
    var ps := ["5000", "10000", "20000", "50000"];
    assert ps[1..] == ["10000", "20000", "50000"];
    assert ps[1..][1..] == ["20000", "50000"];
    assert ps[1..][1..][1..] == ["50000"];
  }

  lemma DefaultTexts()
    ensures Texts([100, 500, 1000, 5000, 10000, 20000, 50000])
         == ["100", "500", "1000", "5000", "10000", "20000", "50000"]
  {
    SmallDefaultDigits();
    LargeDefaultDigits();
    var ts := Texts([100, 500, 1000, 5000, 10000, 20000, 50000]);
    assert ts[0] == "100" && ts[1] == "500" && ts[2] == "1000" && ts[3] == "5000";
    assert ts[4] == "10000" && ts[5] == "20000" && ts[6] == "50000";
  }

  lemma SmallDefaultDigits()
    ensures Digits(100) == "100" && Digits(500) == "500"
    ensures Digits(1000) == "1000" && Digits(5000) == "5000"
  {
    assert Digits(10) == "10" && Digits(50) == "50";
    assert Digits(100) == "100" && Digits(500) == "500";
  }

  lemma LargeDefaultDigits()
    ensures Digits(10000) == "10000" && Digits(20000) == "20000" && Digits(50000) == "50000"
  {
    SmallDefaultDigits();
    assert Digits(200) == "200" && Digits(2000) == "2000";
  }
}
