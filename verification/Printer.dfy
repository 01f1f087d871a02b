/** The challenge sentence: numbers in words, random letter case, random separator tokens. */
module Printer {
  import opened Basics
  import opened Answers

  const UNITS: seq<string> := [
    "zero", "one", "two", "three", "four", "five", "six", "seven", "eight", "nine", "ten",
    "eleven", "twelve", "thirteen", "fourteen", "fifteen", "sixteen", "seventeen", "eighteen", "nineteen"]

  const TENS: seq<string> := [
    "", "", "twenty", "thirty", "forty", "fifty", "sixty", "seventy", "eighty", "ninety"]

  const SEPARATORS: seq<string> := ["^", "|", "~", "]"]

  // ---- Text and tokens ----

  /** The words of a text, runs of spaces between them. */
  function Split(s: string): seq<string> {
    if s == "" then []
    else
      var n := |s| - 1;
      if s[n] == ' ' then Split(s[..n])
      else if n == 0 || s[n - 1] == ' ' then Split(s[..n]) + [[s[n]]]
      else
        var front := Split(s[..n]);
        if front == [] then [[s[n]]] else front[..|front| - 1] + [front[|front| - 1] + [s[n]]]
  }

  /** The words with one space between neighbours. */
  function Spaced(words: seq<string>): string {
    if words == [] then ""
    else if |words| == 1 then words[0]
    else Spaced(words[..|words| - 1]) + " " + words[|words| - 1]
  }

  predicate SpaceFree(word: string) {
    word != "" && forall i :: 0 <= i < |word| ==> word[i] != ' '
  }

  predicate AllSpaceFree(words: seq<string>) {
    forall i :: 0 <= i < |words| ==> SpaceFree(words[i])
  }

  lemma {:induction false} SplitWord(a: string, word: string)
    requires SpaceFree(word) && (a == "" || a[|a| - 1] == ' ')
    ensures Split(a + word) == Split(a) + [word]
  {
    var s, n := a + word, |word| - 1;
    assert s[..|s| - 1] == a + word[..n];
    assert word == word[..n] + [word[n]];
    if n == 0 {
      assert a + [] == a;
    } else {
      SplitWord(a, word[..n]);
      assert s[|s| - 2] == word[n - 1];
    }
  }

  /** One more word after a space. */
  lemma SplitNext(a: string, word: string)
    requires SpaceFree(word)
    ensures Split(a + " " + word) == Split(a) + [word]
  {
    SplitWord(a + " ", word);
    assert (a + " ")[..|a|] == a;
  }

  lemma {:induction false} SplitSpaced(words: seq<string>)
    requires AllSpaceFree(words)
    ensures Split(Spaced(words)) == words
  {
    if words != [] {
      var n := |words| - 1;
      var front, last := words[..n], words[n];
      assert words == front + [last];
      SplitSpaced(front);
      if n == 0 {
        assert Spaced(words) == "" + last;
        SplitWord("", last);
      } else {
        SplitNext(Spaced(front), last);
      }
    }
  }

  // ---- Separators ----

  predicate IsSeparator(token: string) {
    token in SEPARATORS
  }

  function DropSeparators(tokens: seq<string>): seq<string> {
    if tokens == [] then []
    else
      var n := |tokens| - 1;
      DropSeparators(tokens[..n]) + if IsSeparator(tokens[n]) then [] else [tokens[n]]
  }

  /** The words with a separator after each but the last. */
  function Interleave(words: seq<string>, picks: nat -> string): seq<string> {
    if words == [] then []
    else if |words| == 1 then words
    else Interleave(words[..|words| - 1], picks) + [picks(|words| - 2)] + [words[|words| - 1]]
  }

  /** Every word stands where it should, with the separator drawn for it right after, but for the last. */
  lemma {:induction false} InterleavedAt(words: seq<string>, picks: nat -> string)
    ensures words == [] ==> Interleave(words, picks) == []
    ensures words != [] ==> |Interleave(words, picks)| == 2 * |words| - 1
    ensures forall i :: 0 <= i < |words| ==> Interleave(words, picks)[2 * i] == words[i]
    ensures forall i :: 0 <= i < |words| - 1 ==> Interleave(words, picks)[2 * i + 1] == picks(i)
  {
    if |words| > 1 {
      InterleavedAt(words[..|words| - 1], picks);
    }
  }

  lemma InterleaveNext(words: seq<string>, word: string, picks: nat -> string)
    ensures Interleave(words + [word], picks)
         == if words == [] then [word] else Interleave(words, picks) + [picks(|words| - 1)] + [word]
  {
    var all := words + [word];
    if words == [] {
      assert all == [word];
    } else {
      var n := |all| - 2;
      assert all[..|all| - 1] == words && all[n + 1] == word;
      assert picks(n) == picks(|words| - 1);
      assert Interleave(all, picks) == Interleave(all[..n + 1], picks) + [picks(n)] + [all[n + 1]];
    }
  }

  /** What the loop has joined before word number i. */
  function PartsAt(words: seq<string>, picks: nat -> string, i: nat): seq<string>
    requires i <= |words|
  {
    Interleave(words[..i], picks) + if 0 < i < |words| then [picks(i - 1)] else []
  }

  lemma PartsNext(words: seq<string>, picks: nat -> string, i: nat)
    requires i < |words|
    ensures PartsAt(words, picks, i + 1)
         == PartsAt(words, picks, i) + [words[i]] + if i != |words| - 1 then [picks(i)] else []
  {
    assert words[..i + 1] == words[..i] + [words[i]];
    InterleaveNext(words[..i], words[i], picks);
  }

  /** `picks(i)` is the separator drawn after word number i. */
  method RandomJoin(words: seq<string>, picks: nat -> string) returns (text: string)
    ensures text == Spaced(Interleave(words, picks))
  {
    var parts: seq<string> := [];
    for i := 0 to |words|
      invariant parts == PartsAt(words, picks, i)
    {
      PartsNext(words, picks, i);
      parts := parts + [words[i]];
      if i != |words| - 1 {
        parts := parts + [picks(i)];
      }
    }
    assert words[..|words|] == words && Interleave(words, picks) + [] == Interleave(words, picks);
    text := Spaced(parts);
  }

  ghost predicate DrawsSeparators(picks: nat -> string) {
    forall i: nat :: IsSeparator(picks(i))
  }

  lemma {:induction false} DropInterleaved(words: seq<string>, picks: nat -> string)
    requires DrawsSeparators(picks) && forall i :: 0 <= i < |words| ==> !IsSeparator(words[i])
    ensures DropSeparators(Interleave(words, picks)) == words
  {
    if |words| == 1 {
      assert DropSeparators(words[..0]) == [];
    } else if words != [] {
      var n := |words| - 1;
      var front := Interleave(words[..n], picks);
      DropInterleaved(words[..n], picks);
      var all := front + [picks(n - 1)] + [words[n]];
      DropLast(front, picks(n - 1));
      DropLast(front + [picks(n - 1)], words[n]);
      assert Interleave(words, picks) == all;
    }
  }

  lemma DropLast(front: seq<string>, word: string)
    ensures DropSeparators(front + [word]) == DropSeparators(front) + if IsSeparator(word) then [] else [word]
  {
    assert (front + [word])[..|front|] == front;
  }

  lemma {:induction false} InterleavedSpaceFree(words: seq<string>, picks: nat -> string)
    requires DrawsSeparators(picks) && AllSpaceFree(words)
    ensures AllSpaceFree(Interleave(words, picks))
  {
    if |words| > 1 {
      var n := |words| - 1;
      InterleavedSpaceFree(words[..n], picks);
      assert IsSeparator(picks(n - 1));
    }
  }

  /** Joining and then splitting again gives back any list of words free of spaces and separators. */
  lemma JoinRoundTrip(words: seq<string>, picks: nat -> string)
    requires DrawsSeparators(picks)
    requires AllSpaceFree(words) && forall i :: 0 <= i < |words| ==> !IsSeparator(words[i])
    ensures DropSeparators(Split(Spaced(Interleave(words, picks)))) == words
  {
    InterleavedSpaceFree(words, picks);
    SplitSpaced(Interleave(words, picks));
    DropInterleaved(words, picks);
  }

  // ---- Letter case ----

  predicate IsUpper(ch: char) {
    'A' <= ch <= 'Z'
  }

  predicate IsLower(ch: char) {
    'a' <= ch <= 'z'
  }

  predicate IsAlpha(ch: char) {
    IsUpper(ch) || IsLower(ch)
  }

  function LowerChar(ch: char): char {
    if IsUpper(ch) then ch + 32 as char else ch
  }

  function UpperChar(ch: char): char {
    if IsLower(ch) then ch - 32 as char else ch
  }

  function Lower(s: string): (r: string)
    ensures |r| == |s|
  {
    seq(|s|, i requires 0 <= i < |s| => LowerChar(s[i]))
  }

  function LowerAll(words: seq<string>): (r: seq<string>)
    ensures |r| == |words|
  {
    seq(|words|, i requires 0 <= i < |words| => Lower(words[i]))
  }

  function Letters(s: string): nat {
    if s == "" then 0 else Letters(s[..|s| - 1]) + if IsAlpha(s[|s| - 1]) then 1 else 0
  }

  /** Letters alternate between the cases, starting with `first`; nothing else changes. */
  method SpongebobCase(word: string, first: bool) returns (r: string)
    ensures |r| == |word|
    ensures forall i :: 0 <= i < |word| ==>
              r[i] == if !IsAlpha(word[i]) then word[i]
                      else if first == (Letters(word[..i]) % 2 == 0) then UpperChar(word[i])
                      else LowerChar(word[i])
  {
    r := "";
    var upper := first;
    for n := 0 to |word|
      invariant |r| == n && upper == (first == (Letters(word[..n]) % 2 == 0))
      invariant forall i :: 0 <= i < n ==>
                  r[i] == if !IsAlpha(word[i]) then word[i]
                          else if first == (Letters(word[..i]) % 2 == 0) then UpperChar(word[i])
                          else LowerChar(word[i])
    {
      assert word[..n + 1][..n] == word[..n];
      var ch := word[n];
      if IsAlpha(ch) {
        r := r + [if upper then UpperChar(ch) else LowerChar(ch)];
        upper := !upper;
      } else {
        r := r + [ch];
      }
    }
  }

  predicate Letter(ch: char) {
    'a' <= ch <= 'z' || 'A' <= ch <= 'Z'
  }

  /** The letters at `i` and `j` have only other characters between them. */
  predicate Neighbours(word: string, i: nat, j: nat) {
    i < j < |word| && Letter(word[i]) && Letter(word[j]) && forall k :: i < k < j ==> !Letter(word[k])
  }

  /** So two letters with none in between differ in case, and the first is in the case drawn. */
  lemma Alternates(word: string, first: bool, r: string, i: nat, j: nat)
    requires |r| == |word| && Neighbours(word, i, j)
    requires forall k :: 0 <= k < |word| && IsAlpha(word[k]) ==>
               r[k] == if first == (Letters(word[..k]) % 2 == 0) then UpperChar(word[k]) else LowerChar(word[k])
    ensures 'A' <= r[i] <= 'Z' <==> 'a' <= r[j] <= 'z'
    ensures (forall k :: 0 <= k < i ==> !Letter(word[k])) ==> ('A' <= r[i] <= 'Z' <==> first)
  {
    LettersUpTo(word, i + 1, j);
    assert word[..i + 1][..i] == word[..i];
    if forall k :: 0 <= k < i ==> !Letter(word[k]) {
      LettersUpTo(word, 0, i);
    }
  }

  lemma {:induction false} LettersUpTo(word: string, i: nat, j: nat)
    requires i <= j <= |word| && forall k :: i <= k < j ==> !Letter(word[k])
    ensures Letters(word[..j]) == Letters(word[..i])
  {
    if i < j {
      LettersUpTo(word, i, j - 1);
      assert word[..j][..j - 1] == word[..j - 1];
    }
  }

  lemma LowerAppend(a: string, b: string)
    ensures Lower(a + b) == Lower(a) + Lower(b)
  {
  }

  lemma {:induction false} LowerSpaced(words: seq<string>)
    ensures Lower(Spaced(words)) == Spaced(LowerAll(words))
  {
    if |words| > 1 {
      var n := |words| - 1;
      LowerSpaced(words[..n]);
      assert LowerAll(words)[..n] == LowerAll(words[..n]);
      LowerAppend(Spaced(words[..n]) + " ", words[n]);
      LowerAppend(Spaced(words[..n]), " ");
      assert Lower(" ") == " ";
    }
  }

  lemma {:induction false} LowerInterleave(words: seq<string>, picks: nat -> string)
    requires DrawsSeparators(picks)
    ensures LowerAll(Interleave(words, picks)) == Interleave(LowerAll(words), picks)
  {
    if |words| > 1 {
      var n := |words| - 1;
      LowerInterleave(words[..n], picks);
      assert LowerAll(words)[..n] == LowerAll(words[..n]);
      var pick := picks(n - 1);
      assert IsSeparator(pick);
      assert Lower(pick) == pick;
    }
  }

  /** What a solver reads: lower case, split on spaces, separators dropped. */
  function Recover(text: string): seq<string> {
    DropSeparators(Split(Lower(text)))
  }

  /** Whatever letter case and whatever separators are drawn, the words come back. */
  lemma CaseRoundTrip(words: seq<string>, cased: seq<string>, picks: nat -> string)
    requires DrawsSeparators(picks) && LowerAll(cased) == words
    requires AllSpaceFree(words) && forall i :: 0 <= i < |words| ==> !IsSeparator(words[i])
    ensures Recover(Spaced(Interleave(cased, picks))) == words
  {
    LowerSpaced(Interleave(cased, picks));
    LowerInterleave(cased, picks);
    JoinRoundTrip(words, picks);
  }

  // ---- Numbers in words ----

  /** Covers every number below 2000; the challenge draws from 1 to 99. */
  function NumberToWords(n: nat): string
    requires n < 2000
  {
    if n < 20 then UNITS[n]
    else if n < 100 then
      if n % 10 == 0 then TENS[n / 10] else TENS[n / 10] + " " + UNITS[n % 10]
    else if n % 100 == 0 then UNITS[n / 100] + " hundred"
    else UNITS[n / 100] + " hundred " + NumberToWords(n % 100)
  }

  function OperationWord(op: Operation): string {
    match op
    case Add => "add"
    case Subtract => "subtract"
    case Multiply => "multiply"
    case Divide => "divide"
  }

  function Sentence(left: nat, right: nat, op: Operation): string
    requires left < 2000 && right < 2000
  {
    "the first value is " + NumberToWords(left) + " and the second value is " + NumberToWords(right)
    + ", " + OperationWord(op) + " them"
  }

  // ---- Reading the words ----

  function Find(table: seq<string>, word: string): (r: Option<nat>)
    ensures r.Some? ==> r.value < |table| && table[r.value] == word
    ensures r.None? ==> forall i :: 0 <= i < |table| ==> table[i] != word
  {
    if table == [] then None
    else if table[|table| - 1] == word then Some(|table| - 1)
    else Find(table[..|table| - 1], word)
  }

  /** A number below 100: a unit, a multiple of ten, or both. */
  function ReadSmall(words: seq<string>): Option<nat> {
    if |words| == 1 then
      if Find(UNITS, words[0]).Some? then Find(UNITS, words[0])
      else match Find(TENS, words[0]) case None => None case Some(t) => Some(10 * t)
    else if |words| == 2 && Find(TENS, words[0]).Some? && Find(UNITS, words[1]).Some? then
      Some(10 * Find(TENS, words[0]).value + Find(UNITS, words[1]).value)
    else None
  }

  function ReadNumber(words: seq<string>): Option<nat> {
    if |words| >= 2 && words[1] == "hundred" then
      var h := Find(UNITS, words[0]);
      if h.None? then None
      else if |words| == 2 then Some(100 * h.value)
      else match ReadSmall(words[2..]) case None => None case Some(n) => Some(100 * h.value + n)
    else ReadSmall(words)
  }

  /** The position of the first "and", or the length. */
  function FirstAnd(words: seq<string>): (n: nat)
    ensures n <= |words|
  {
    if words == [] || words[0] == "and" then 0 else 1 + FirstAnd(words[1..])
  }

  function DropComma(words: seq<string>): seq<string> {
    if words == [] || words[|words| - 1] == "" then words
    else
      var last := words[|words| - 1];
      words[..|words| - 1] + [if last[|last| - 1] == ',' then last[..|last| - 1] else last]
  }

  function ReadOperation(word: string): Option<Operation> {
    if word == "add" then Some(Add)
    else if word == "subtract" then Some(Subtract)
    else if word == "multiply" then Some(Multiply)
    else if word == "divide" then Some(Divide)
    else None
  }

  /** "the first value is A and the second value is B, OP them" */
  function ReadSentence(words: seq<string>): Option<(nat, nat, Operation)> {
    if |words| < 4 || words[..4] != ["the", "first", "value", "is"] then None
    else ReadOperands(words[4..], FirstAnd(words[4..]))
  }

  /** The rest of the sentence, with the first "and" at `n`. */
  function ReadOperands(rest: seq<string>, n: nat): Option<(nat, nat, Operation)> {
    if |rest| < n + 7 || rest[n..n + 5] != ["and", "the", "second", "value", "is"] || rest[|rest| - 1] != "them" then None
    else Together(ReadNumber(rest[..n]), ReadNumber(DropComma(rest[n + 5..|rest| - 2])), ReadOperation(rest[|rest| - 2]))
  }

  function Together(left: Option<nat>, right: Option<nat>, op: Option<Operation>): Option<(nat, nat, Operation)> {
    if left.None? || right.None? || op.None? then None else Some((left.value, right.value, op.value))
  }

  // ---- The vocabulary ----

  /** A number that tells the words of the vocabulary apart. */
  function Code(w: string): nat
    requires w != ""
  {
    var n, last := |w|, w[|w| - 1];
    match w[0]
    case 'z' => 0
    case 'o' => 1
    case 't' =>
      if n == 3 then (if w[1] == 'w' then 2 else 10)
      else if n == 5 then 3
      else if n == 8 then 13
      else if last != 'y' then 12
      else if n > 1 && w[1] == 'w' then 22 else 23
    case 'f' =>
      if n == 4 then (if w[1] == 'o' then 4 else 5)
      else if n == 5 then (if w[1] == 'o' then 24 else 25)
      else if n == 7 then 15 else 14
    case 's' =>
      if n == 3 then 6 else if n == 9 then 17
      else if n == 5 then (if last == 'y' then 26 else 7)
      else if last == 'y' then 27 else 16
    case 'e' =>
      if n == 5 then 8 else if n == 8 then 18 else if last == 'y' then 28 else 11
    case 'n' => if n == 4 then 9 else if n == 6 then 29 else 19
    case 'h' => 30
    case _ => 31
  }

  lemma UnitCodes(i: nat)
    requires i < 20
    ensures UNITS[i] != "" && Code(UNITS[i]) == i
  {
  }

  lemma TenCodes(i: nat)
    requires 2 <= i < 10
    ensures TENS[i] != "" && Code(TENS[i]) == 20 + i
  {
  }

  predicate Lowercase(w: string) {
    w != "" && forall i :: 0 <= i < |w| ==> IsLower(w[i])
  }

  lemma TableWords(i: nat)
    ensures i < 20 ==> Lowercase(UNITS[i])
    ensures 2 <= i < 10 ==> Lowercase(TENS[i])
  {
  }

  lemma FindUnit(i: nat)
    requires i < 20
    ensures Find(UNITS, UNITS[i]) == Some(i)
  {
    UnitCodes(i);
    UnitCodes(Find(UNITS, UNITS[i]).value);
  }

  lemma FindTen(i: nat)
    requires 2 <= i < 10
    ensures Find(TENS, TENS[i]) == Some(i) && Find(UNITS, TENS[i]) == None
  {
    TenCodes(i);
    var r := Find(TENS, TENS[i]);
    assert TENS[0] == "" && TENS[1] == "";
    if r.Some? && r.value >= 2 {
      TenCodes(r.value);
    }
    var u := Find(UNITS, TENS[i]);
    if u.Some? {
      UnitCodes(u.value);
    }
  }

  lemma NeitherHundredNorAnd(i: nat)
    ensures i < 20 ==> UNITS[i] != "hundred" && UNITS[i] != "and"
    ensures 2 <= i < 10 ==> TENS[i] != "and"
    ensures "hundred" != "and"
  {
    assert Code("hundred") == 30 && Code("and") == 31;
    if i < 20 {
      UnitCodes(i);
    }
    if 2 <= i < 10 {
      TenCodes(i);
    }
  }

  // ---- The sentence as a list of words ----

  function NumberList(n: nat): (r: seq<string>)
    requires n < 2000
    ensures r != []
  {
    if n < 20 then [UNITS[n]]
    else if n < 100 then if n % 10 == 0 then [TENS[n / 10]] else [TENS[n / 10], UNITS[n % 10]]
    else [UNITS[n / 100], "hundred"] + if n % 100 == 0 then [] else NumberList(n % 100)
  }

  lemma ReadTens(t: nat, u: nat)
    requires 2 <= t < 10 && u < 10
    ensures ReadSmall([TENS[t]]) == Some(10 * t) && ReadSmall([TENS[t], UNITS[u]]) == Some(10 * t + u)
  {
    FindTen(t);
    FindUnit(u);
  }

  lemma ReadSmallList(n: nat)
    requires n < 100
    ensures ReadSmall(NumberList(n)) == Some(n)
  {
    if n < 20 {
      FindUnit(n);
    } else {
      ReadTens(n / 10, n % 10);
    }
  }

  /** Reading what was printed gives the number back. */
  lemma ReadNumberList(n: nat)
    requires n < 2000
    ensures ReadNumber(NumberList(n)) == Some(n)
  {
    if n < 100 {
      ReadSmallList(n);
      NeitherHundredNorAnd(n % 10);
    } else {
      FindUnit(n / 100);
      if n % 100 != 0 {
        ReadSmallList(n % 100);
        assert NumberList(n)[2..] == NumberList(n % 100);
      }
    }
  }

  /** Lower-case letters, and perhaps a comma at the end. */
  predicate Plain(w: string) {
    w != "" && forall i :: 0 <= i < |w| ==> IsLower(w[i]) || (w[i] == ',' && i == |w| - 1)
  }

  predicate AllPlain(words: seq<string>) {
    forall i :: 0 <= i < |words| ==> Plain(words[i])
  }

  lemma NumberWords(n: nat)
    requires n < 2000
    ensures forall i :: 0 <= i < |NumberList(n)| ==> Lowercase(NumberList(n)[i]) && NumberList(n)[i] != "and"
  {
    if n < 20 {
      TableWords(n);
      NeitherHundredNorAnd(n);
    } else if n < 100 {
      TableWords(n / 10);
      TableWords(n % 10);
      NeitherHundredNorAnd(n / 10);
      NeitherHundredNorAnd(n % 10);
    } else {
      TableWords(n / 100);
      NeitherHundredNorAnd(n / 100);
      assert Lowercase("hundred");
      if n % 100 != 0 {
        NumberWords(n % 100);
      }
    }
  }

  lemma {:induction false} SpacedConcat(a: seq<string>, b: seq<string>)
    requires a != [] && b != []
    ensures Spaced(a + b) == Spaced(a) + " " + Spaced(b)
  {
    var n := |b| - 1;
    assert (a + b)[..|a + b| - 1] == a + b[..n];
    if n == 0 {
      assert a + b[..0] == a;
    } else {
      SpacedConcat(a, b[..n]);
    }
  }

  lemma SpacedTwo(a: string, b: string)
    ensures Spaced([a, b]) == a + " " + b
  {
    SpacedConcat([a], [b]);
    assert [a] + [b] == [a, b];
  }

  lemma NumberText(n: nat)
    requires n < 2000
    ensures NumberToWords(n) == Spaced(NumberList(n))
  {
    if 20 <= n < 100 {
      SpacedTwo(TENS[n / 10], UNITS[n % 10]);
    } else if n >= 100 {
      var hundreds := UNITS[n / 100];
      SpacedTwo(hundreds, "hundred");
      assert hundreds + " hundred" == hundreds + " " + "hundred";
      if n % 100 == 0 {
        assert [hundreds, "hundred"] + [] == [hundreds, "hundred"];
      } else {
        NumberText(n % 100);
        SpacedConcat([hundreds, "hundred"], NumberList(n % 100));
        assert hundreds + " hundred " == hundreds + " hundred" + " ";
      }
    }
  }

  function WithComma(words: seq<string>): seq<string>
    requires words != []
  {
    words[..|words| - 1] + [words[|words| - 1] + ","]
  }

  const OPENING := ["the", "first", "value", "is"]
  const MIDDLE := ["and", "the", "second", "value", "is"]

  function SentenceList(left: nat, right: nat, op: Operation): seq<string>
    requires left < 2000 && right < 2000
  {
    OPENING + NumberList(left) + MIDDLE + WithComma(NumberList(right)) + [OperationWord(op), "them"]
  }

  lemma SpacedNext(words: seq<string>, word: string)
    requires words != []
    ensures Spaced(words + [word]) == Spaced(words) + " " + word
  {
    SpacedConcat(words, [word]);
  }

  lemma SpacedFour(a: string, b: string, c: string, d: string)
    ensures Spaced([a, b, c, d]) == a + " " + b + " " + c + " " + d
  {
    SpacedTwo(a, b);
    SpacedNext([a, b], c);
    SpacedNext([a, b, c], d);
    assert [a, b] + [c] == [a, b, c] && [a, b, c] + [d] == [a, b, c, d];
  }

  lemma OpeningText()
    ensures Spaced(OPENING) == "the first value is"
  {
    SpacedFour("the", "first", "value", "is");
    assert "the" + " " + "first" + " " + "value" + " " + "is" == "the first value is";
  }

  lemma MiddleText()
    ensures Spaced(MIDDLE) == "and the second value is"
  {
    SpacedFour("and", "the", "second", "value");
    SpacedNext(["and", "the", "second", "value"], "is");
    assert ["and", "the", "second", "value"] + ["is"] == MIDDLE;
    assert "and" + " " + "the" + " " + "second" + " " + "value" + " " + "is" == "and the second value is";
  }

  lemma CommaText(words: seq<string>)
    requires words != []
    ensures Spaced(WithComma(words)) == Spaced(words) + ","
  {
    var n := |words| - 1;
    var front, last := words[..n], words[n];
    assert words == front + [last];
    if n > 0 {
      SpacedConcat(front, [last]);
      SpacedConcat(front, [last + ","]);
    }
  }

  lemma SpacedFive(a: seq<string>, b: seq<string>, c: seq<string>, d: seq<string>, e: seq<string>)
    requires a != [] && b != [] && c != [] && d != [] && e != []
    ensures Spaced(a + b + c + d + e)
         == Spaced(a) + " " + Spaced(b) + " " + Spaced(c) + " " + Spaced(d) + " " + Spaced(e)
  {
    SpacedConcat(a, b);
    SpacedConcat(a + b, c);
    SpacedConcat(a + b + c, d);
    SpacedConcat(a + b + c + d, e);
  }

  lemma Glue(opening: string, l: string, middle: string, r: string, o: string)
    ensures opening + " " + l + (" " + middle + " ") + r + ", " + o + " them"
         == opening + " " + l + " " + middle + " " + (r + ",") + " " + (o + " " + "them")
  {
    var x := opening + " " + l;
    assert x + (" " + middle + " ") == x + " " + middle + " ";
    var y := x + " " + middle + " ";
    assert y + r + ", " == y + (r + ",") + " ";
    var z := y + (r + ",") + " ";
    assert z + o + " them" == z + (o + " " + "them");
  }

  lemma SentenceText(left: nat, right: nat, op: Operation)
    requires left < 2000 && right < 2000
    ensures Sentence(left, right, op) == Spaced(SentenceList(left, right, op))
  {
    NumberText(left);
    NumberText(right);
    CommaText(NumberList(right));
    OpeningText();
    MiddleText();
    SpacedTwo(OperationWord(op), "them");
    SpacedFive(OPENING, NumberList(left), MIDDLE, WithComma(NumberList(right)), [OperationWord(op), "them"]);
    var opening, middle := Spaced(OPENING), Spaced(MIDDLE);
    assert "the first value is " == opening + " ";
    assert " and the second value is " == " " + middle + " ";
    Glue(opening, NumberToWords(left), middle, NumberToWords(right), OperationWord(op));
  }

  lemma FixedPlain(op: Operation)
    ensures AllPlain(OPENING) && AllPlain(MIDDLE) && AllPlain([OperationWord(op), "them"])
  {
  }

  lemma CommaPlain(words: seq<string>)
    requires words != [] && forall i :: 0 <= i < |words| ==> Lowercase(words[i])
    ensures AllPlain(words) && AllPlain(WithComma(words))
  {
  }

  lemma SentencePlain(left: nat, right: nat, op: Operation)
    requires left < 2000 && right < 2000
    ensures AllPlain(SentenceList(left, right, op))
  {
    NumberWords(left);
    NumberWords(right);
    CommaPlain(NumberList(left));
    CommaPlain(NumberList(right));
    FixedPlain(op);
  }

  lemma PlainWord(w: string)
    requires Plain(w)
    ensures SpaceFree(w) && !IsSeparator(w) && Lower(w) == w
  {
    assert forall i :: 0 <= i < |SEPARATORS| ==> SEPARATORS[i][0] != w[0];
  }

  lemma {:induction false} FirstAndAt(a: seq<string>, b: seq<string>)
    requires forall i :: 0 <= i < |a| ==> a[i] != "and"
    requires b != [] && b[0] == "and"
    ensures FirstAnd(a + b) == |a|
  {
    if a == [] {
      assert a + b == b;
    } else {
      assert (a + b)[1..] == a[1..] + b;
      FirstAndAt(a[1..], b);
    }
  }

  lemma ReadOperationWord(op: Operation)
    ensures ReadOperation(OperationWord(op)) == Some(op)
  {
    assert "add"[1] == 'd' && "subtract"[1] == 'u' && "multiply"[0] == 'm' && "divide"[0] == 'd';
  }

  lemma Slices(a: seq<string>, m: seq<string>, b: seq<string>, e: seq<string>)
    ensures var rest := a + m + b + e;
            && rest[..|a|] == a && rest[|a|..|a| + |m|] == m
            && rest[|a| + |m|..|rest| - |e|] == b && rest[|rest| - |e|..] == e
  {
  }

  lemma AndIsNext(a: seq<string>, b: seq<string>, e: seq<string>)
    requires forall i :: 0 <= i < |a| ==> a[i] != "and"
    ensures FirstAnd(a + MIDDLE + b + e) == |a|
  {
    assert a + MIDDLE + b + e == a + (MIDDLE + b + e);
    FirstAndAt(a, MIDDLE + b + e);
  }

  lemma LastTwo(s: seq<string>, x: string, y: string)
    ensures var all := s + [x, y]; all[|all| - 2] == x && all[|all| - 1] == y
  {
  }

  lemma ReadParts(a: seq<string>, b: seq<string>, word: string, left: nat, right: nat, op: Operation)
    requires forall i :: 0 <= i < |a| ==> a[i] != "and"
    requires b != [] && b[|b| - 1] != ""
    requires ReadNumber(a) == Some(left) && ReadNumber(DropComma(b)) == Some(right) && ReadOperation(word) == Some(op)
    ensures ReadSentence(OPENING + (a + MIDDLE + b + [word, "them"])) == Some((left, right, op))
  {
    var rest := a + MIDDLE + b + [word, "them"];
    assert (OPENING + rest)[..4] == OPENING && (OPENING + rest)[4..] == rest;
    assert FirstAnd(rest) == |a| by {
      AndIsNext(a, b, [word, "them"]);
    }
    assert rest[..|a|] == a && rest[|a|..|a| + 5] == MIDDLE && rest[|a| + 5..|rest| - 2] == b by {
      Slices(a, MIDDLE, b, [word, "them"]);
    }
    assert rest[|rest| - 2] == word && rest[|rest| - 1] == "them" by {
      LastTwo(a + MIDDLE + b, word, "them");
    }
    ReadAt(OPENING + rest, rest, |a|, left, right, op);
  }

  lemma ReadAt(words: seq<string>, rest: seq<string>, n: nat, left: nat, right: nat, op: Operation)
    requires |words| >= 4 && words[..4] == OPENING && words[4..] == rest
    requires FirstAnd(rest) == n && |rest| >= n + 7 && rest[n..n + 5] == MIDDLE && rest[|rest| - 1] == "them"
    requires ReadNumber(rest[..n]) == Some(left) && ReadNumber(DropComma(rest[n + 5..|rest| - 2])) == Some(right)
    requires ReadOperation(rest[|rest| - 2]) == Some(op)
    ensures ReadSentence(words) == Some((left, right, op))
  {
    OperandsAt(rest, n, Some(left), Some(right), Some(op));
  }

  lemma OperandsAt(rest: seq<string>, n: nat, left: Option<nat>, right: Option<nat>, op: Option<Operation>)
    requires |rest| >= n + 7 && rest[n..n + 5] == MIDDLE && rest[|rest| - 1] == "them"
    requires ReadNumber(rest[..n]) == left && ReadNumber(DropComma(rest[n + 5..|rest| - 2])) == right
    requires ReadOperation(rest[|rest| - 2]) == op
    ensures ReadOperands(rest, n) == Together(left, right, op)
  {
  }

  lemma CommaDropped(words: seq<string>)
    requires words != []
    ensures DropComma(WithComma(words)) == words
  {
  }

  lemma Reassociate(o: seq<string>, a: seq<string>, m: seq<string>, b: seq<string>, e: seq<string>)
    ensures o + (a + m + b + e) == o + a + m + b + e
  {
  }

  /** Reading the sentence recovers both operands and the operation. */
  lemma ReadSentenceList(left: nat, right: nat, op: Operation)
    requires left < 2000 && right < 2000
    ensures ReadSentence(SentenceList(left, right, op)) == Some((left, right, op))
  {
    var a, b, end := NumberList(left), WithComma(NumberList(right)), [OperationWord(op), "them"];
    NumberWords(left);
    ReadNumberList(left);
    ReadNumberList(right);
    ReadOperationWord(op);
    CommaDropped(NumberList(right));
    ReadParts(a, b, OperationWord(op), left, right, op);
    Reassociate(OPENING, a, MIDDLE, b, end);
  }

  // ---- The obfuscated sentence ----

  method CaseWords(words: seq<string>, firsts: nat -> bool) returns (cased: seq<string>)
    ensures LowerAll(cased) == LowerAll(words)
  {
    cased := [];
    for i := 0 to |words|
      invariant |cased| == i && forall j :: 0 <= j < i ==> Lower(cased[j]) == Lower(words[j])
    {
      var w := SpongebobCase(words[i], firsts(i));
      assert Lower(w) == Lower(words[i]);
      cased := cased + [w];
    }
  }

  /** `firsts` and `picks` are the random draws: letter cases by word, and separators. */
  method ObfuscateExpression(left: nat, right: nat, op: Operation, firsts: nat -> bool, picks: nat -> string)
    returns (text: string)
    requires left < 2000 && right < 2000 && DrawsSeparators(picks)
    ensures Recover(text) == Split(Sentence(left, right, op))
    ensures ReadSentence(Recover(text)) == Some((left, right, op))
  {
    var words := Split(Sentence(left, right, op));
    ghost var list := SentenceList(left, right, op);
    SentencePlain(left, right, op);
    forall i | 0 <= i < |list| ensures SpaceFree(list[i]) && !IsSeparator(list[i]) && Lower(list[i]) == list[i] {
      PlainWord(list[i]);
    }
    assert words == list by {
      SentenceText(left, right, op);
      SplitSpaced(list);
    }
    var cased := CaseWords(words, firsts);
    text := RandomJoin(cased, picks);
    assert LowerAll(cased) == words;
    CaseRoundTrip(words, cased, picks);
    ReadSentenceList(left, right, op);
  }
}
