/** Which texts are answers, by the way they are written, and what number each of them denotes. */
module Grammar {
  import opened Basics
  import opened Answers

  /** The code points that may surround a number. */
  const SPACES: set<int> := {9, 10, 11, 12, 13, 28, 29, 30, 31, 32, 133, 160, 5760,
                             8192, 8193, 8194, 8195, 8196, 8197, 8198, 8199, 8200, 8201, 8202,
                             8232, 8233, 8239, 8287, 12288}

  predicate Blank(s: string) {
    forall i :: 0 <= i < |s| ==> s[i] as int in SPACES
  }

  /** `a` is blanks, a sign or none, whole digits, a point and places or neither, and blanks. */
  ghost predicate Written(a: string, pre: string, sign: string, whole: string, places: string, post: string) {
    && a == pre + sign + whole + (if places == "" then "" else "." + places) + post
    && Blank(pre) && Blank(post) && sign in {"", "+", "-"}
    && whole != "" && AllDigits(whole) && AllDigits(places)
  }

  /** The number written so: the whole part and the fraction, negative exactly for a minus sign. */
  function Value(sign: string, whole: string, places: string): Decimal
    requires AllDigits(whole) && AllDigits(places)
  {
    Decimal(sign == "-", Nat(whole) * Pow10(|places|) + Nat(places), |places|)
  }

  ghost predicate Denotes(a: string, x: Decimal) {
    exists pre, sign, whole, places, post ::
      Written(a, pre, sign, whole, places, post) && x == Value(sign, whole, places)
  }

  // ---- Stripping ----

  lemma SpaceIs(ch: char)
    ensures IsSpace(ch) <==> ch as int in SPACES
  {
  }

  lemma {:induction false} StripLeft(pre: string, s: string)
    requires Blank(pre)
    ensures Strip(pre + s) == Strip(s)
  {
    if pre == "" {
      assert pre + s == s;
    } else {
      assert (pre + s)[0] == pre[0] && (pre + s)[1..] == pre[1..] + s;
      SpaceIs(pre[0]);
      StripLeft(pre[1..], s);
    }
  }

  lemma {:induction false} StripRight(s: string, post: string)
    requires Blank(post) && s != "" && !IsSpace(s[0])
    ensures Strip(s + post) == Strip(s)
  {
    if post == "" {
      assert s + post == s;
    } else {
      var n := |post| - 1;
      assert (s + post)[|s + post| - 1] == post[n] && (s + post)[..|s + post| - 1] == s + post[..n];
      SpaceIs(post[n]);
      StripRight(s, post[..n]);
    }
  }

  /** What stripping takes away is blank. */
  lemma {:induction false} StripSplits(a: string) returns (pre: string, post: string)
    ensures a == pre + Strip(a) + post && Blank(pre) && Blank(post)
  {
    pre, post := "", "";
    if a == "" || (!IsSpace(a[0]) && !IsSpace(a[|a| - 1])) {
      assert Strip(a) == a;
    } else if IsSpace(a[0]) {
      pre, post := StripSplits(a[1..]);
      WidenLeft(a, pre, Strip(a), post);
      SpaceIs(a[0]);
      pre := [a[0]] + pre;
    } else {
      var n := |a| - 1;
      pre, post := StripSplits(a[..n]);
      WidenRight(a, pre, Strip(a), post);
      SpaceIs(a[n]);
      post := post + [a[n]];
    }
  }

  lemma WidenLeft(a: string, pre: string, core: string, post: string)
    requires a != "" && a[1..] == pre + core + post
    ensures a == ([a[0]] + pre) + core + post
  {
  }

  lemma WidenRight(a: string, pre: string, core: string, post: string)
    requires a != "" && a[..|a| - 1] == pre + core + post
    ensures a == pre + core + (post + [a[|a| - 1]])
  {
  }

  // ---- Parsing ----

  lemma {:induction false} NoPoint(s: string)
    requires AllDigits(s)
    ensures PointIn(s) == |s|
  {
    if s != "" {
      NoPoint(s[1..]);
    }
  }

  function Tail(places: string): string {
    if places == "" then "" else "." + places
  }

  lemma WholeMagnitude(negative: bool, whole: string)
    requires whole != "" && AllDigits(whole)
    ensures ParseMagnitude(negative, whole) == Some(Decimal(negative, Nat(whole), 0))
  {
    NoPoint(whole);
    assert whole[..|whole|] == whole;
  }

  /** The digits on both sides of the point, read as one number. */
  lemma Coefficient(whole: string, places: string)
    requires AllDigits(whole) && AllDigits(places)
    ensures AllDigits(whole + places) && Nat(whole + places) == Value("", whole, places).coeff
  {
    NatAppend(whole, places);
  }

  lemma PointMagnitude(negative: bool, whole: string, places: string, s: string, coeff: nat)
    requires whole != "" && places != "" && AllDigits(whole) && AllDigits(places) && AllDigits(whole + places)
    requires s == whole + "." + places && coeff == Nat(whole + places)
    ensures ParseMagnitude(negative, s) == Some(Decimal(negative, coeff, |places|))
  {
    ParseParts(negative, whole, places);
  }

  lemma MagnitudeOf(negative: bool, whole: string, places: string, s: string)
    requires whole != "" && AllDigits(whole) && AllDigits(places) && s == whole + Tail(places)
    ensures ParseMagnitude(negative, s) == Some(Value("", whole, places).(negative := negative))
  {
    Coefficient(whole, places);
    if places == "" {
      assert s == whole && whole + places == whole;
      WholeMagnitude(negative, whole);
    } else {
      assert s == whole + "." + places;
      PointMagnitude(negative, whole, places, s, Value("", whole, places).coeff);
    }
  }

  /** Whatever parses without a sign is whole digits with or without places. */
  lemma MagnitudeSplits(negative: bool, s: string) returns (whole: string, places: string)
    requires ParseMagnitude(negative, s).Some?
    ensures whole != "" && AllDigits(whole) && AllDigits(places) && s == whole + Tail(places)
  {
    var p := PointIn(s);
    if p == |s| {
      whole, places := s, "";
      assert s[..p] == s;
    } else {
      whole, places := s[..p], s[p + 1..];
      assert s == s[..p] + [s[p]] + s[p + 1..];
    }
  }

  lemma ParseSign(sign: string, body: string)
    requires sign in {"", "+", "-"} && body != "" && body[0] != '+' && body[0] != '-'
    ensures Parse(sign + body) == ParseMagnitude(sign == "-", body)
  {
    if sign == "" {
      assert sign + body == body;
    } else {
      assert (sign + body)[0] == sign[0] && (sign + body)[1..] == body;
    }
  }

  lemma ParseSigned(sign: string, body: string, whole: string, places: string)
    requires sign in {"", "+", "-"} && whole != "" && AllDigits(whole) && AllDigits(places)
    requires body == whole + Tail(places) && body != "" && IsDigit(body[0])
    ensures Parse(sign + body) == Some(Value(sign, whole, places))
  {
    ParseSign(sign, body);
    MagnitudeOf(sign == "-", whole, places, body);
  }

  lemma ParseNumber(sign: string, whole: string, places: string)
    requires sign in {"", "+", "-"} && whole != "" && AllDigits(whole) && AllDigits(places)
    ensures Parse(sign + (whole + Tail(places))) == Some(Value(sign, whole, places))
  {
    var body := whole + Tail(places);
    assert body != "" && body[0] == whole[0];
    ParseSigned(sign, body, whole, places);
  }

  lemma LastDigit(whole: string, places: string)
    requires whole != "" && AllDigits(whole) && AllDigits(places)
    ensures var body := whole + Tail(places);
            body != "" && IsDigit(body[0]) && IsDigit(body[|body| - 1])
  {
    var body := whole + Tail(places);
    assert body[0] == whole[0];
    assert body[|body| - 1] == if places == "" then whole[|whole| - 1] else places[|places| - 1];
  }

  lemma NumberEnds(sign: string, whole: string, places: string)
    requires sign in {"", "+", "-"} && whole != "" && AllDigits(whole) && AllDigits(places)
    ensures var s := sign + (whole + Tail(places));
            s != "" && !IsSpace(s[0]) && !IsSpace(s[|s| - 1])
  {
    var body := whole + Tail(places);
    LastDigit(whole, places);
    assert (sign + body)[|sign + body| - 1] == body[|body| - 1];
    assert (sign + body)[0] == if sign == "" then body[0] else sign[0];
  }

  lemma Flat(pre: string, sign: string, whole: string, tail: string, post: string)
    ensures pre + (sign + (whole + tail) + post) == pre + sign + whole + tail + post
    ensures pre + (sign + (whole + tail)) + post == pre + sign + whole + tail + post
  {
  }

  lemma StripAround(pre: string, s: string, post: string)
    requires Blank(pre) && Blank(post) && s != "" && !IsSpace(s[0]) && !IsSpace(s[|s| - 1])
    ensures Strip(pre + (s + post)) == s
  {
    StripLeft(pre, s + post);
    StripRight(s, post);
    StripIdle(s);
  }

  lemma ParseWritten(a: string, pre: string, sign: string, whole: string, places: string, post: string)
    requires Written(a, pre, sign, whole, places, post)
    ensures Parse(Strip(a)) == Some(Value(sign, whole, places))
  {
    Flat(pre, sign, whole, Tail(places), post);
    NumberEnds(sign, whole, places);
    StripAround(pre, sign + (whole + Tail(places)), post);
    ParseNumber(sign, whole, places);
  }

  lemma SignSplits(s: string) returns (sign: string, whole: string, places: string)
    requires Parse(s).Some?
    ensures sign in {"", "+", "-"} && whole != "" && AllDigits(whole) && AllDigits(places)
    ensures s == sign + (whole + Tail(places))
  {
    if s != [] && (s[0] == '+' || s[0] == '-') {
      whole, places := MagnitudeSplits(s[0] == '-', s[1..]);
      sign := [s[0]];
      assert s == [s[0]] + s[1..];
    } else {
      whole, places := MagnitudeSplits(false, s);
      sign := "";
    }
  }

  lemma WrittenParse(a: string) returns (pre: string, sign: string, whole: string, places: string, post: string)
    requires Parse(Strip(a)).Some?
    ensures Written(a, pre, sign, whole, places, post)
  {
    pre, post := StripSplits(a);
    sign, whole, places := SignSplits(Strip(a));
    Flat(pre, sign, whole, Tail(places), post);
  }

  /**
   The parser accepts exactly the texts written like a decimal number, and gives the number written;
   so however a text is taken apart, it denotes one number.
   */
  lemma ParseExactly(a: string, x: Decimal)
    ensures Parse(Strip(a)) == Some(x) <==> Denotes(a, x)
  {
    if Parse(Strip(a)) == Some(x) {
      var pre, sign, whole, places, post := WrittenParse(a);
      ParseWritten(a, pre, sign, whole, places, post);
    }
    if Denotes(a, x) {
      var pre, sign, whole, places, post :|
        Written(a, pre, sign, whole, places, post) && x == Value(sign, whole, places);
      ParseWritten(a, pre, sign, whole, places, post);
    }
  }

  // ---- Rounding ----

  /** `cents` is the nearest number of cents to `x`, the larger magnitude on a tie, and no zero has a sign. */
  ghost predicate RoundsTo(x: Decimal, cents: Decimal) {
    && 200 * x.coeff - Pow10(x.places) < 2 * Pow10(x.places) * cents.coeff <= 200 * x.coeff + Pow10(x.places)
    && cents.negative == (x.negative && cents.coeff != 0) && cents.places == 2
  }

  lemma RoundsExactly(x: Decimal, cents: Decimal)
    ensures MergeZero(Quantize(x)) == cents <==> RoundsTo(x, cents)
  {
    var p := Pow10(x.places);
    HalfUpNearest(100 * x.coeff, p);
    if RoundsTo(x, cents) {
      NearestIsHalfUp(100 * x.coeff, p, cents.coeff);
    }
  }

  // ---- What is accepted, and as what ----

  /** Exactly which submitted answers are numbers the service accepts, and their normal forms. */
  lemma AcceptedExactly(a: string)
    ensures Normalize(a).Some? <==> |a| <= 64 && exists x :: Denotes(a, x) && !Beyond(x, 24)
    ensures forall x, cents :: Normalize(a).Some? && Denotes(a, x) && RoundsTo(x, cents) ==>
              Normalize(a) == Some(ToText(cents))
  {
    if Parse(Strip(a)).Some? {
      var x := Parse(Strip(a)).value;
      ParseExactly(a, x);
      RangeExact(x);
    }
    forall x | Denotes(a, x) ensures Parse(Strip(a)) == Some(x) {
      ParseExactly(a, x);
    }
    forall x, cents | Denotes(a, x) && RoundsTo(x, cents) ensures MergeZero(Quantize(x)) == cents {
      RoundsExactly(x, cents);
    }
  }

  /** Answers denoting the same number are normalized alike, however they are written, unless just one
      of them is too long and the number is not refused anyway. */
  lemma NormalizeByValue(a: string, b: string, x: Decimal, y: Decimal)
    requires Denotes(a, x) && Denotes(b, y) && SameValue(x, y)
    ensures Normalize(a) == Normalize(b) <==> ((|a| <= 64 <==> |b| <= 64) || Beyond(x, 24))
  {
    ParseExactly(a, x);
    ParseExactly(b, y);
    RangeExact(x);
    SameNormalForm(a, b);
  }

  /** What a text of at most 64 characters denotes rounds to these cents. */
  ghost predicate Means(answer: string, cents: Decimal) {
    |answer| <= 64 && exists x :: Denotes(answer, x) && RoundsTo(x, cents)
  }

  /**
   No right answer is lost and no other one accepted: a text normalizes to the expected answer exactly
   if it is written like a decimal number, in at most 64 characters, and that number rounds to the
   exact result rounded half up.
   */
  lemma RightAnswer(answer: string, left: nat, right: nat, operation: Operation)
    requires 1 <= left <= 99 && 1 <= right <= 99
    ensures operation.Divide? ==> QuotientPlaces(left, right) >= 0
    ensures Normalize(answer) == Some(Calculate(left, right, operation))
       <==> Means(answer, TrueCents(left, right, operation))
  {
    var cents := TrueCents(left, right, operation);
    ParsedRightAnswer(answer, left, right, operation);
    if Parse(Strip(answer)).Some? {
      var x := Parse(Strip(answer)).value;
      ParseExactly(answer, x);
      RoundsExactly(x, cents);
    }
    forall x | Denotes(answer, x) ensures Parse(Strip(answer)) == Some(x) {
      ParseExactly(answer, x);
    }
  }
}
