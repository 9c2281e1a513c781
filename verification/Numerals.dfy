/** What a link stands for, spelled out (pkg/sorter/dependency.go): replica numbers are positive
    decimal numerals, and the service of an identifier is the part before such a number. */
module Numerals {
  import opened Text
  import opened LinkResolution

  /** The largest 64-bit integer. */
  const LARGEST: nat := 9223372036854775807

  // ----- decimal numerals

  function Digit(d: nat): char
    requires d < 10
  {
    "0123456789"[d]
  }

  function Decimal(n: nat): string {
    if n < 10 then [Digit(n)] else Decimal(n / 10) + [Digit(n % 10)]
  }

  function Zeros(k: nat): string {
    if k == 0 then "" else Zeros(k - 1) + "0"
  }

  /** A plus sign or none, any number of leading zeros, then a number from 1 to the largest. */
  ghost predicate Spells(text: string, sign: string, k: nat, n: nat) {
    sign in {"", "+"} && 1 <= n <= LARGEST && text == sign + (Zeros(k) + Decimal(n))
  }

  ghost predicate Numeral(text: string) {
    exists sign, k, n :: Spells(text, sign, k, n)
  }

  lemma DigitValue(d: nat)
    requires d < 10
    ensures '0' <= Digit(d) <= '9' && (Digit(d) - '0') as nat == d
  {
    assert d == 0 || d == 1 || d == 2 || d == 3 || d == 4 || d == 5 || d == 6 || d == 7 || d == 8 || d == 9;
  }

  lemma DigitOf(c: char)
    requires '0' <= c <= '9'
    ensures Digit((c - '0') as nat) == c
  {
    DigitValue((c - '0') as nat);
  }

  lemma ValueSnoc(digits: string, c: char)
    requires AllDigits(digits) && '0' <= c <= '9'
    ensures AllDigits(digits + [c]) && Value(digits + [c]) == 10 * Value(digits) + (c - '0') as nat
  {
    assert (digits + [c])[..|digits|] == digits;
  }

  lemma {:induction false} DecimalValue(n: nat)
    ensures AllDigits(Decimal(n)) && Decimal(n) != "" && Value(Decimal(n)) == n
  {
    DigitValue(n % 10);
    if n < 10 {
      ValueSnoc("", Digit(n));
      assert "" + [Digit(n)] == [Digit(n)];
    } else {
      DecimalValue(n / 10);
      ValueSnoc(Decimal(n / 10), Digit(n % 10));
    }
  }

  lemma {:induction false} ZerosValue(k: nat)
    ensures AllDigits(Zeros(k)) && Value(Zeros(k)) == 0
  {
    if k > 0 {
      ZerosValue(k - 1);
      ValueSnoc(Zeros(k - 1), '0');
      assert Zeros(k - 1) + "0" == Zeros(k - 1) + ['0'];
    }
  }

  lemma PaddedSnoc(k: nat, n: nat)
    requires n >= 10
    ensures Zeros(k) + Decimal(n) == (Zeros(k) + Decimal(n / 10)) + [Digit(n % 10)]
  {
    assert Decimal(n) == Decimal(n / 10) + [Digit(n % 10)];
  }

  lemma {:induction false} PaddedValue(k: nat, n: nat)
    ensures var t := Zeros(k) + Decimal(n); AllDigits(t) && t != "" && Value(t) == n
  {
    hide Zeros, AllDigits, Value, Digit;
    DigitValue(n % 10);
    if n < 10 {
      ZerosValue(k);
      ValueSnoc(Zeros(k), Digit(n));
    } else {
      PaddedSnoc(k, n);
      hide Decimal;
      PaddedValue(k, n / 10);
      ValueSnoc(Zeros(k) + Decimal(n / 10), Digit(n % 10));
    }
  }

  lemma {:induction false} OnlyZeros(t: string)
    requires AllDigits(t) && Value(t) == 0
    ensures t == Zeros(|t|)
  {
    if t != "" {
      var n := |t| - 1;
      OnlyZeros(t[..n]);
      assert t == t[..n] + [t[n]];
    }
  }

  /** Every digit string is the padded decimal form of its value. */
  lemma {:induction false} ReadBack(t: string) returns (k: nat)
    requires AllDigits(t) && Value(t) > 0
    ensures t == Zeros(k) + Decimal(Value(t))
  {
    var n := |t| - 1;
    var u, d := t[..n], (t[n] - '0') as nat;
    DigitOf(t[n]);
    assert t == u + [t[n]];
    if Value(u) == 0 {
      OnlyZeros(u);
      k := n;
    } else {
      k := ReadBack(u);
      assert Value(t) / 10 == Value(u) && Value(t) % 10 == d;
    }
  }

  /** The accepted replica numbers are exactly these numerals. */
  lemma PositiveIntegerIff(text: string)
    ensures IsPositiveInteger(text) <==> Numeral(text)
  {
    hide IsPositiveInteger, Spells, Decimal, Zeros;
    if IsPositiveInteger(text) {
      var sign, k, n := NumeralOf(text);
    }
    if Numeral(text) {
      var sign, k, n :| Spells(text, sign, k, n);
      SpelledIsPositive(text, sign, k, n);
    }
  }

  lemma NumeralOf(text: string) returns (sign: string, k: nat, n: nat)
    requires IsPositiveInteger(text)
    ensures Spells(text, sign, k, n)
  {
    hide Decimal, Zeros, Value;
    sign := if "+" <= text then "+" else "";
    var digits := text[|sign|..];
    n := Value(digits);
    k := ReadBack(digits);
    assert text == sign + digits;
  }

  lemma SpelledIsPositive(text: string, sign: string, k: nat, n: nat)
    requires Spells(text, sign, k, n)
    ensures IsPositiveInteger(text)
  {
    hide Decimal, Zeros, Value;
    PaddedValue(k, n);
    SignRead(sign, Zeros(k) + Decimal(n));
  }

  lemma SignRead(sign: string, digits: string)
    requires sign in {"", "+"} && digits != "" && AllDigits(digits)
    ensures var text := sign + digits; (if "+" <= text then text[1..] else text) == digits
  {
    assert '0' <= digits[0] <= '9';
    if sign == "" {
      assert "" + digits == digits;
    } else {
      assert ("+" + digits)[1..] == digits;
    }
  }

  /** Every number from 1 to the largest counts; zero and anything larger do not, signed or padded. */
  lemma WhichNumbersCount(sign: string, k: nat, n: nat)
    requires sign in {"", "+"}
    ensures IsPositiveInteger(sign + (Zeros(k) + Decimal(n))) <==> 1 <= n <= 9223372036854775807
  {
    PaddedValue(k, n);
    SignRead(sign, Zeros(k) + Decimal(n));
  }

  lemma NumeralHasNoHyphen(text: string)
    requires Numeral(text)
    ensures '-' !in text
  {
    PositiveIntegerIff(text);
    var digits := if "+" <= text then text[1..] else text;
    assert forall i :: 0 <= i < |digits| ==> digits[i] != '-';
  }

  // ----- replicas

  /** The identifier is the link with a replica number. */
  ghost predicate Numbered(k: string, link: string) {
    exists number :: Numeral(number) && k == link + "-" + number
  }

  lemma ReplicaIff(k: string, link: string)
    ensures ReplicaOf(k, link) <==> Numbered(k, link)
  {
    hide IsPositiveInteger, Numeral;
    if ReplicaOf(k, link) {
      var number := k[|link| + 1..];
      PositiveIntegerIff(number);
      assert k == link + "-" + number;
    }
    if Numbered(k, link) {
      var number :| Numeral(number) && k == link + "-" + number;
      PositiveIntegerIff(number);
      assert k[|link| + 1..] == number;
    }
  }

  // ----- services

  /** The service stands last in the identifier, or last before a replica number; a number at the end
      is never a service, unless it is the whole identifier. */
  ghost predicate Serves(k: string, service: string) {
    && '-' !in service
    && (|| k == service
        || (!Numeral(service) && exists p :: k == p + "-" + service)
        || Numbered(k, service)
        || exists p :: Numbered(k, p + "-" + service))
  }

  lemma LastParts(p: string, last: string)
    requires '-' !in last
    ensures Split(p + "-" + last, '-') == Split(p, '-') + [last]
  {
    SplitConcat(p, last, '-');
    SplitWhole(last, '-');
  }

  /** The last part of an identifier that is no number, and the last but one before a number. */
  lemma ServiceRead(k: string, service: string)
    requires Serves(k, service)
    ensures ExtractServiceName(k) == service
  {
    hide IsPositiveInteger, Numeral, Split;
    if k == service {
      SplitWhole(service, '-');
    } else if Numbered(k, service) {
      var number :| Numeral(number) && k == service + "-" + number;
      NumberedService([], "", service, number);
      assert "" + service + "-" + number == k;
    } else if exists p :: Numbered(k, p + "-" + service) {
      var p :| Numbered(k, p + "-" + service);
      var number :| Numeral(number) && k == p + "-" + service + "-" + number;
      LastParts(p, service);
      NumberedService(Split(p, '-'), p + "-", service, number);
    } else {
      var p :| k == p + "-" + service;
      LastParts(p, service);
      PositiveIntegerIff(service);
    }
  }

  lemma NumberedService(front: seq<string>, prefix: string, service: string, number: string)
    requires '-' !in service && Numeral(number)
    requires Split(prefix + service, '-') == front + [service] || (prefix == "" && front == [])
    ensures ExtractServiceName(prefix + service + "-" + number) == service
  {
    hide IsPositiveInteger, Numeral;
    NumeralHasNoHyphen(number);
    PositiveIntegerIff(number);
    SplitWhole(service, '-');
    assert prefix == "" ==> prefix + service == service;
    LastParts(prefix + service, number);
    var parts := Split(prefix + service + "-" + number, '-');
    assert parts == front + [service] + [number];
  }

  /** The service of an identifier is what it serves, and nothing else is. */
  lemma ServiceIff(k: string, service: string)
    ensures ExtractServiceName(k) == service <==> Serves(k, service)
  {
    hide IsPositiveInteger, Numeral;
    if ExtractServiceName(k) == service {
      var parts := Split(k, '-');
      SplitParts(k, '-');
      JoinSplit(k, '-');
      var n := |parts| - 1;
      assert parts[n] in parts && parts == parts[..n] + [parts[n]];
      if n == 0 {
        JoinOne(parts[0], '-');
      } else {
        JoinAppend(parts[..n], parts[n], '-');
        PositiveIntegerIff(parts[n]);
        if IsPositiveInteger(parts[n]) {
          ServiceBefore(k, parts[..n], parts[n]);
          assert parts[n - 1] in parts;
        }
      }
    }
    if Serves(k, service) {
      ServiceRead(k, service);
    }
  }

  lemma ServiceBefore(k: string, front: seq<string>, number: string)
    requires front != [] && k == Join(front, '-') + ['-'] + number && Numeral(number)
    ensures Numbered(k, front[|front| - 1]) || exists p :: Numbered(k, p + "-" + front[|front| - 1])
  {
    hide Numeral, Join, Numbered;
    var m := |front| - 1;
    var last := front[m];
    if m == 0 {
      assert front == [last];
      JoinOne(last, '-');
      NumberedBy(k, last, number);
    } else {
      var p := JoinedBefore(front);
      ThreeParts(k, Join(front, '-'), p, last, number);
    }
  }

  lemma JoinedBefore(front: seq<string>) returns (p: string)
    requires |front| > 1
    ensures Join(front, '-') == p + ['-'] + front[|front| - 1]
  {
    hide Join;
    var m := |front| - 1;
    assert front == front[..m] + [front[m]];
    JoinAppend(front[..m], front[m], '-');
    p := Join(front[..m], '-');
  }

  lemma ThreeParts(k: string, joined: string, p: string, last: string, number: string)
    requires joined == p + ['-'] + last && k == joined + ['-'] + number && Numeral(number)
    ensures Numbered(k, p + "-" + last)
  {
    hide Numeral;
    assert joined == p + "-" + last;
    assert k == p + "-" + last + "-" + number;
  }

  lemma NumberedBy(k: string, link: string, number: string)
    requires k == link + ['-'] + number && Numeral(number)
    ensures Numbered(k, link)
  {
  }

  // ----- links

  /** A link stands for the identifier it spells; else for every one that adds a replica number to it;
      else for the only one that serves it. */
  ghost predicate StandsFor(keys: set<string>, link: string, t: string) {
    && t in keys
    && (if link in keys then t == link
        else if exists k :: k in keys && Numbered(k, link) then Numbered(t, link)
        else Serves(t, link) && forall k :: k in keys && Serves(k, link) ==> k == t)
  }

  lemma CandidatesIff(keys: set<string>, link: string, t: string)
    ensures t in Candidates(keys, link) <==> StandsFor(keys, link, t)
  {
    hide ReplicaOf, ExtractServiceName, Numbered, Serves;
    forall k
      ensures ReplicaOf(k, link) <==> Numbered(k, link)
      ensures ExtractServiceName(k) == link <==> Serves(k, link)
    {
      ReplicaIff(k, link);
      ServiceIff(k, link);
    }
    if link !in keys {
      assert forall k :: k in keys && Numbered(k, link) ==> k in Replicas(keys, link);
      if Replicas(keys, link) != {} {
        var k :| k in Replicas(keys, link);
        assert k in keys && Numbered(k, link);
        assert t in Candidates(keys, link) <==> t in Elements(Candidates(keys, link));
      } else {
        assert forall k :: k in keys ==> !Numbered(k, link);
        OnlyMatch(keys, link, t);
        assert forall k :: k in ServiceMatches(keys, link) <==> k in keys && Serves(k, link);
      }
    }
  }

  lemma OnlyMatch(keys: set<string>, link: string, t: string)
    requires link !in keys && Replicas(keys, link) == {}
    ensures t in Candidates(keys, link) <==>
            && t in ServiceMatches(keys, link)
            && forall k :: k in ServiceMatches(keys, link) ==> k == t
  {
    hide ReplicaOf, ExtractServiceName;
    var matches := ServiceMatches(keys, link);
    if t in matches && forall k :: k in matches ==> k == t {
      Alone(matches, t);
    }
    if |matches| == 1 {
      var x :| x in matches;
      assert |matches - {x}| == 0;
      assert matches == {x};
      AscendingOne(x);
    }
  }

  lemma Alone(s: set<string>, t: string)
    requires t in s && forall k :: k in s ==> k == t
    ensures |s| == 1
  {
    assert s == {t};
  }

  lemma CandidatesAscend(keys: set<string>, link: string)
    ensures Ascends(Candidates(keys, link))
  {
    hide ReplicaOf, ExtractServiceName;
  }

  /** A listed replica of a link that is no identifier itself is among what it stands for. */
  lemma ReplicaStandsFor(keys: set<string>, link: string, n: nat)
    requires link !in keys && 1 <= n <= 9223372036854775807 && link + "-" + Decimal(n) in keys
    ensures StandsFor(keys, link, link + "-" + Decimal(n))
  {
    hide Decimal, Serves;
    assert "" + (Zeros(0) + Decimal(n)) == Decimal(n);
    assert Spells(Decimal(n), "", 0, n);
    assert Numbered(link + "-" + Decimal(n), link);
  }
}
