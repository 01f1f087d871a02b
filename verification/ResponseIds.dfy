/** Identities in backend responses and tool inputs: positive decimal Longs, without coercion. */
module ResponseIds {
  import opened Basics
  import opened Answers

  /** A JSON value, as far as the checks tell values apart. */
  datatype Value = Null | Truth(b: bool) | Number(n: int) | Text(s: string) | Other

  const MAX_LONG: int := 9_223_372_036_854_775_807

  predicate IsLong(v: Value) {
    v.Number? && 0 < v.n <= MAX_LONG
  }

  /** All aliases present carry the one given value. */
  predicate Agreed(values: seq<Value>, v: Value) {
    values != [] && forall i :: 0 <= i < |values| ==> values[i] == v
  }

  /** `values` are those of the alias keys present, in order; None stands for the contract error. */
  function RequireLongId(values: seq<Value>): (r: Option<int>)
    ensures r.Some? <==> exists n :: 0 < n <= MAX_LONG && Agreed(values, Number(n))
    ensures r.Some? ==> 0 < r.value <= MAX_LONG && Agreed(values, Number(r.value))
  {
    if values == [] || (exists i :: 0 <= i < |values| && !IsLong(values[i]))
       || (exists i :: 0 <= i < |values| && values[i] != values[0]) then
      assert forall n :: Agreed(values, Number(n)) ==> values[0] == Number(n);
      None
    else
      assert Agreed(values, Number(values[0].n));
      Some(values[0].n)
  }

  datatype Nullable = Absent | Present(n: int) | Malformed

  function OptionalLongId(values: seq<Value>): (r: Nullable)
    ensures r.Present? ==> 0 < r.n <= MAX_LONG && Agreed(values, Number(r.n))
    ensures r.Absent? <==> forall i :: 0 <= i < |values| ==> values[i] == Null
  {
    if values == [] || forall i :: 0 <= i < |values| ==> values[i] == Null then Absent
    else
      var r := RequireLongId(values);
      if r.Some? then Present(r.value) else Malformed
  }

  // ---- Decimal text and numbers ----

  predicate IsDecimal(s: string) {
    s != [] && AllDigits(s)
  }

  lemma {:induction false} DigitsInjective(a: nat, b: nat)
    requires Digits(a) == Digits(b)
    ensures a == b
  {
    NatDigits(a);
    NatDigits(b);
  }

  /** `str(int(s))` for decimal text; any other text stands for itself. */
  function NormalizeExpected(s: string): string {
    if IsDecimal(s) then Digits(Nat(s)) else s
  }

  /** The identity must be valid and be the one asked for. */
  function RequireTargetId(values: seq<Value>, expected: string): Option<int> {
    var id := RequireLongId(values);
    if id.Some? && Digits(id.value) == NormalizeExpected(expected) then id else None
  }

  /** A target check compares numbers: it succeeds exactly when the request names that number. */
  lemma TargetIdIsNumeric(values: seq<Value>, expected: string)
    ensures RequireTargetId(values, expected).Some? <==>
            RequireLongId(values).Some? && IsDecimal(expected) && Nat(expected) == RequireLongId(values).value
  {
    var id := RequireLongId(values);
    if id.Some? {
      NatDigits(id.value);
      if IsDecimal(expected) {
        NatDigits(Nat(expected));
      }
    }
  }

  // ---- Tool inputs ----

  predicate IsIdChar(ch: char) {
    'A' <= ch <= 'Z' || 'a' <= ch <= 'z' || '0' <= ch <= '9' || ch == '_' || ch == '-'
  }

  predicate IsResourceId(s: string) {
    && 1 <= |s| <= 128 && (forall i :: 0 <= i < |s| ==> IsIdChar(s[i]))
    && s != "0" && s[0] != '-'
  }

  function StripZeros(s: string): (r: string)
    ensures AllDigits(s) ==> AllDigits(r) && Nat(r) == Nat(s)
    ensures r != [] ==> r[0] != '0'
  {
    if s != [] && s[0] == '0' then
      assert AllDigits(s) ==> Nat(s) == Nat(s[1..]) by {
        if AllDigits(s) {
          assert s == [s[0]] + s[1..];
          NatAppend([s[0]], s[1..]);
          assert [s[0]][..0] == [];
          assert Nat([s[0]]) == 0;
        }
      }
      StripZeros(s[1..])
    else s
  }

  /** The board a lookup is for, from the text of its id. */
  function BoardLookupId(text: string): Option<int> {
    if !IsResourceId(text) || !IsDecimal(text) then None
    else
      var s := StripZeros(text);
      if s == [] || |s| > 19 || Nat(s) > MAX_LONG then None else Some(Nat(s))
  }

  lemma {:induction false} LeadingDigit(s: string)
    requires IsDecimal(s) && s[0] != '0'
    ensures Nat(s) >= Pow10(|s| - 1)
  {
    if |s| > 1 {
      LeadingDigit(s[..|s| - 1]);
    }
  }

  /** A lookup id is accepted exactly when its text is a decimal Long of at most 128 digits. */
  lemma LookupIdExact(text: string)
    ensures BoardLookupId(text).Some? <==>
            IsDecimal(text) && |text| <= 128 && 1 <= Nat(text) < 0x8000_0000_0000_0000
    ensures BoardLookupId(text).Some? ==> BoardLookupId(text).value == Nat(text)
  {
    if IsDecimal(text) {
      var s := StripZeros(text);
      if s != [] {
        LeadingDigit(s);
        if |s| > 19 {
          Pow10Grows(19, |s| - 1);
          NineteenDigits(19);
        }
      }
      assert text == "0" ==> Nat(text) == 0 by {
        assert "0"[..0] == "";
      }
    }
  }

  lemma NineteenDigits(n: nat)
    requires n == 19
    ensures Pow10(n) > MAX_LONG
  {
    Pow10Add(n - 4, 4);
    Pow10Add(n - 8, 4);
    Pow10Add(n - 12, 4);
    Pow10Add(n - 16, 4);
    assert Pow10(3) == 1000 && Pow10(4) == 10000;
    assert n - 16 == 3;
  }

  /** Observed ids: one to nineteen digits denoting a positive Long, in canonical text. */
  function ObservedId(text: string): Option<string> {
    if !(IsDecimal(text) && |text| <= 19) || !(0 < Nat(text) <= MAX_LONG) then None
    else Some(Digits(Nat(text)))
  }

  /** Exactly the positive Longs of at most nineteen digits are observed. Two of them get the same
      canonical text exactly when they denote the same number. */
  lemma ObservedIdCanonical(a: string, b: string)
    ensures ObservedId(a).Some? <==> 1 <= |a| <= 19 && AllDigits(a) && 1 <= Nat(a) < 0x8000_0000_0000_0000
    ensures ObservedId(a).Some? && ObservedId(b).Some? ==> (ObservedId(a) == ObservedId(b) <==> Nat(a) == Nat(b))
    ensures ObservedId(a).Some? ==> Nat(ObservedId(a).value) == Nat(a) && ObservedId(ObservedId(a).value) == ObservedId(a)
  {
    if ObservedId(a).Some? {
      ObservedAgain(a);
    }
    if ObservedId(a).Some? && ObservedId(b).Some? {
      NatDigits(Nat(a));
      NatDigits(Nat(b));
    }
  }

  lemma ObservedAgain(a: string)
    requires ObservedId(a).Some?
    ensures Nat(ObservedId(a).value) == Nat(a) && ObservedId(ObservedId(a).value) == ObservedId(a)
  {
    NatDigits(Nat(a));
    NineteenDigits(19);
    DigitBound(Nat(a), 19);
  }
}
