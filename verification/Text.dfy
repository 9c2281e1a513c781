/** The string helpers the planner relies on: Go's `strings` and `sort`
    operations over sequences of characters, with the laws used later. */
module Text {

  /** util.NormalizeContainerName: drops one leading slash. */
  function NormalizeContainerName(name: string): string {
    if "/" <= name then name[1..] else name
  }

  /** unicode.IsSpace. */
  predicate IsSpace(c: char) {
    || c in "\t\n\r \U{000B}\U{000C}\U{0085}\U{00A0}\U{1680}\U{2028}\U{2029}\U{202F}\U{205F}\U{3000}"
    || '\U{2000}' <= c <= '\U{200A}'
  }

  function TrimLeft(s: string): string {
    if s != "" && IsSpace(s[0]) then TrimLeft(s[1..]) else s
  }

  function TrimRight(s: string): string {
    if s != "" && IsSpace(s[|s| - 1]) then TrimRight(s[..|s| - 1]) else s
  }

  function TrimSpace(s: string): string {
    TrimRight(TrimLeft(s))
  }

  predicate SpaceFree(s: string) {
    forall c :: c in s ==> !IsSpace(c)
  }

  lemma TrimSpaceFree(s: string)
    requires SpaceFree(s)
    ensures TrimSpace(s) == s
  {
    if s != "" {
      assert s[0] in s && s[|s| - 1] in s;
    }
  }

  // ----- padding

  predicate Blank(pad: string) {
    forall c :: c in pad ==> IsSpace(c)
  }

  /** The text neither begins nor ends with a blank. */
  predicate Trimmed(text: string) {
    text != "" ==> !IsSpace(text[0]) && !IsSpace(text[|text| - 1])
  }

  lemma {:induction false} TrimLeftPad(pad: string, text: string)
    requires Blank(pad) && (text != "" ==> !IsSpace(text[0]))
    ensures TrimLeft(pad + text) == text
  {
    if pad == "" {
      assert pad + text == text;
    } else {
      assert pad[0] in pad && (pad + text)[1..] == pad[1..] + text;
      TrimLeftPad(pad[1..], text);
    }
  }

  lemma {:induction false} TrimRightPad(text: string, pad: string)
    requires Blank(pad) && (text != "" ==> !IsSpace(text[|text| - 1]))
    ensures TrimRight(text + pad) == text
  {
    if pad == "" {
      assert text + pad == text;
    } else {
      var n := |pad| - 1;
      assert pad[n] in pad && (text + pad)[..|text + pad| - 1] == text + pad[..n];
      TrimRightPad(text, pad[..n]);
    }
  }

  lemma {:induction false} AllBlank(pad: string)
    requires Blank(pad)
    ensures TrimLeft(pad) == ""
  {
    if pad != "" {
      assert pad[0] in pad;
      AllBlank(pad[1..]);
    }
  }

  /** Trimming takes the padding off, and nothing else. */
  lemma TrimPadded(before: string, text: string, after: string)
    requires Blank(before) && Blank(after) && Trimmed(text)
    ensures TrimSpace(before + text + after) == text
  {
    if text == "" {
      assert before + text + after == before + after;
      forall c | c in before + after ensures IsSpace(c) {
      }
      AllBlank(before + after);
    } else {
      assert before + text + after == before + (text + after);
      TrimLeftPad(before, text + after);
      TrimRightPad(text, after);
    }
  }

  /** Blank are exactly the characters with these Unicode code points. */
  lemma BlankCodes(c: char)
    ensures IsSpace(c) <==>
            var code := c as int;
            9 <= code <= 13 || code in {32, 0x85, 0xA0, 0x1680, 0x2028, 0x2029, 0x202F, 0x205F, 0x3000}
            || 0x2000 <= code <= 0x200A
  {
    var blanks := "\t\n\r \U{000B}\U{000C}\U{0085}\U{00A0}\U{1680}\U{2028}\U{2029}\U{202F}\U{205F}\U{3000}";
    assert c in blanks <==> exists i :: 0 <= i < |blanks| && blanks[i] == c;
  }

  /** strings.Contains. */
  predicate Contains(s: string, sub: string) {
    exists i | 0 <= i <= |s| :: sub <= s[i..]
  }

  /** strings.Split with a one-character separator. */
  function Split(s: string, sep: char): (parts: seq<string>)
    ensures |parts| >= 1
  {
    if s == "" then [""]
    else
      var rest := Split(s[1..], sep);
      if s[0] == sep then [""] + rest else [[s[0]] + rest[0]] + rest[1..]
  }

  /** strings.Join with a one-character separator. */
  function Join(parts: seq<string>, sep: char): string {
    if parts == [] then ""
    else if |parts| == 1 then parts[0]
    else parts[0] + [sep] + Join(parts[1..], sep)
  }

  lemma {:induction false} SplitWhole(s: string, sep: char)
    requires sep !in s
    ensures Split(s, sep) == [s]
  {
    if s != "" {
      assert s[0] in s;
      SplitWhole(s[1..], sep);
      assert [s[0]] + s[1..] == s;
    }
  }

  lemma {:induction false} SplitFirst(a: string, b: string, sep: char)
    requires sep !in a
    ensures Split(a + [sep] + b, sep) == [a] + Split(b, sep)
  {
    if a == "" {
      assert (a + [sep] + b)[1..] == b;
    } else {
      assert a[0] in a;
      SplitFirst(a[1..], b, sep);
      assert (a + [sep] + b)[1..] == a[1..] + [sep] + b;
      assert [a[0]] + a[1..] == a;
    }
  }

  /** Splitting what was joined gives the parts back, as long as no part holds the separator. */
  lemma {:induction false} SplitJoin(parts: seq<string>, sep: char)
    requires parts != []
    requires forall p :: p in parts ==> sep !in p
    ensures Split(Join(parts, sep), sep) == parts
  {
    assert parts[0] in parts;
    if |parts| == 1 {
      SplitWhole(parts[0], sep);
    } else {
      SplitJoin(parts[1..], sep);
      SplitFirst(parts[0], Join(parts[1..], sep), sep);
    }
  }

  lemma {:induction false} JoinAppend(parts: seq<string>, last: string, sep: char)
    requires parts != []
    ensures Join(parts + [last], sep) == Join(parts, sep) + [sep] + last
  {
    var all := parts + [last];
    assert all[0] == parts[0] && all[1..] == parts[1..] + [last];
    if |parts| == 1 {
      assert Join(all[1..], sep) == last;
    } else {
      JoinAppend(parts[1..], last, sep);
    }
  }

  lemma {:induction false} SplitParts(s: string, sep: char)
    ensures forall p :: p in Split(s, sep) ==> sep !in p
  {
    if s != "" {
      SplitParts(s[1..], sep);
    }
  }

  /** What one more character in front does to the parts. */
  function SplitFront(x: char, parts: seq<string>, sep: char): seq<string>
    requires parts != []
  {
    if x == sep then [""] + parts else [[x] + parts[0]] + parts[1..]
  }

  lemma SplitCons(s: string, sep: char)
    requires s != ""
    ensures Split(s, sep) == SplitFront(s[0], Split(s[1..], sep), sep)
  {
  }

  lemma FrontThenJoin(x: char, parts: seq<string>, sep: char)
    requires parts != []
    ensures Join(SplitFront(x, parts, sep), sep) == [x] + Join(parts, sep)
  {
    var r := SplitFront(x, parts, sep);
    if x == sep {
      assert r[1..] == parts;
    } else {
      assert r[1..] == parts[1..];
    }
  }

  /** Joining what was split gives the text back. */
  lemma {:induction false} JoinSplit(s: string, sep: char)
    ensures Join(Split(s, sep), sep) == s
  {
    hide Join, SplitFront;
    if s == "" {
      JoinOne("", sep);
    } else {
      JoinSplit(s[1..], sep);
      SplitCons(s, sep);
      FrontThenJoin(s[0], Split(s[1..], sep), sep);
      assert s == [s[0]] + s[1..];
    }
  }

  lemma JoinOne(part: string, sep: char)
    ensures Join([part], sep) == part
  {
  }

  lemma FrontThenConcat(x: char, a: seq<string>, b: seq<string>, sep: char)
    requires a != []
    ensures SplitFront(x, a + b, sep) == SplitFront(x, a, sep) + b
  {
  }

  /** Splitting at a separator in the middle. */
  lemma {:induction false} SplitConcat(a: string, b: string, sep: char)
    ensures Split(a + [sep] + b, sep) == Split(a, sep) + Split(b, sep)
  {
    hide Split, SplitFront;
    var s := a + [sep] + b;
    if a == "" {
      SplitAtFront(b, sep);
      assert s == [sep] + b;
    } else {
      SplitConcat(a[1..], b, sep);
      assert s[1..] == a[1..] + [sep] + b;
      SplitCons(s, sep);
      SplitCons(a, sep);
      FrontThenConcat(a[0], Split(a[1..], sep), Split(b, sep), sep);
    }
  }

  lemma SplitAtFront(b: string, sep: char)
    ensures Split([sep] + b, sep) == Split("", sep) + Split(b, sep)
  {
    assert ([sep] + b)[1..] == b;
  }

  /** One more character either opens a new part or extends the last one. */
  function SplitStep(parts: seq<string>, c: char, sep: char): seq<string>
    requires parts != []
  {
    var n := |parts| - 1;
    if c == sep then parts + [""] else parts[..n] + [parts[n] + [c]]
  }

  lemma FrontThenStep(x: char, parts: seq<string>, c: char, sep: char)
    requires parts != []
    ensures SplitFront(x, SplitStep(parts, c, sep), sep) == SplitStep(SplitFront(x, parts, sep), c, sep)
  {
    var n := |parts| - 1;
    if x != sep && c != sep && n == 0 {
      assert [x] + (parts[0] + [c]) == [x] + parts[0] + [c];
    }
  }

  lemma {:induction false} SplitSnoc(s: string, c: char, sep: char)
    ensures Split(s + [c], sep) == SplitStep(Split(s, sep), c, sep)
  {
    hide SplitStep, SplitFront;
    if s == "" {
      SplitOne(c, sep);
    } else {
      SplitSnoc(s[1..], c, sep);
      assert (s + [c])[1..] == s[1..] + [c];
      FrontThenStep(s[0], Split(s[1..], sep), c, sep);
      SplitCons(s, sep);
      SplitCons(s + [c], sep);
    }
  }

  lemma SplitOne(c: char, sep: char)
    ensures Split("" + [c], sep) == SplitStep(Split("", sep), c, sep)
  {
    assert ([c])[1..] == "";
    assert [c] + "" == "" + [c];
  }

  // ----- lexicographic order and sorting

  /** Go's `<` on strings. */
  predicate Less(a: string, b: string) {
    b != "" && (a == "" || a[0] < b[0] || (a[0] == b[0] && Less(a[1..], b[1..])))
  }

  lemma {:induction false} LessTotal(a: string, b: string)
    ensures a == b || Less(a, b) || Less(b, a)
  {
    if a != "" && b != "" && a[0] == b[0] {
      LessTotal(a[1..], b[1..]);
      assert [a[0]] + a[1..] == a && [b[0]] + b[1..] == b;
    }
  }

  lemma {:induction false} LessTransitive(a: string, b: string, c: string)
    requires Less(a, b) && Less(b, c)
    ensures Less(a, c)
  {
    if a != "" && a[0] == b[0] == c[0] {
      LessTransitive(a[1..], b[1..], c[1..]);
    }
  }

  lemma {:induction false} LessIrreflexive(a: string)
    ensures !Less(a, a)
  {
    if a != "" {
      LessIrreflexive(a[1..]);
    }
  }

  lemma LessAntisymmetric(a: string, b: string)
    requires Less(a, b)
    ensures !Less(b, a)
  {
    if Less(b, a) {
      LessTransitive(a, b, a);
      LessIrreflexive(a);
    }
  }

  ghost predicate Distinct<T>(s: seq<T>) {
    forall i, j :: 0 <= i < j < |s| ==> s[i] != s[j]
  }

  ghost predicate Ascends(s: seq<string>) {
    forall i, j :: 0 <= i < j < |s| ==> Less(s[i], s[j])
  }

  /** Nothing is less than what stands before it. */
  ghost predicate Ordered(s: seq<string>) {
    forall i, j :: 0 <= i < j < |s| ==> !Less(s[j], s[i])
  }

  lemma DistinctOrdered(s: seq<string>)
    requires Distinct(s) && Ordered(s)
    ensures Ascends(s)
  {
    forall i, j | 0 <= i < j < |s| ensures Less(s[i], s[j]) {
      LessTotal(s[i], s[j]);
    }
  }

  ghost function Elements<T>(s: seq<T>): set<T> {
    set x | x in s
  }

  lemma {:induction false} DistinctSize<T>(s: seq<T>)
    requires Distinct(s)
    ensures |Elements(s)| == |s|
  {
    if s != [] {
      DistinctSize(s[1..]);
      assert Elements(s) == {s[0]} + Elements(s[1..]);
    }
  }

  lemma RepeatCounts<T>(s: seq<T>, i: nat, j: nat)
    requires i < j < |s| && s[i] == s[j]
    ensures multiset(s)[s[i]] >= 2
  {
    var a, b := s[..j], s[j..];
    assert s == a + b;
    assert a[i] in a && b[0] in b;
    assert multiset(s) == multiset(a) + multiset(b);
  }

  lemma {:induction false} DistinctMultiset<T>(s: seq<T>)
    requires Distinct(s)
    ensures multiset(s) == multiset(Elements(s))
  {
    if s != [] {
      var n := |s| - 1;
      assert s == s[..n] + [s[n]];
      assert s[n] !in s[..n];
      DistinctMultiset(s[..n]);
      assert Elements(s) == Elements(s[..n]) + {s[n]};
    }
  }

  lemma SameMultisetDistinct<T>(a: seq<T>, b: seq<T>)
    requires multiset(a) == multiset(b) == multiset(Elements(a))
    ensures Distinct(b)
  {
    forall i, j | 0 <= i < j < |b| ensures b[i] != b[j] {
      if b[i] == b[j] {
        RepeatCounts(b, i, j);
      }
    }
  }

  /** s lists the set, each member once, in some order: what ranging over a Go map collects. */
  ghost predicate Lists<T>(s: seq<T>, members: set<T>) {
    Distinct(s) && Elements(s) == members
  }

  lemma NothingListed<T>()
    ensures Lists<T>([], {})
  {
    assert Elements<T>([]) == {};
  }

  lemma ListsNext<T>(s: seq<T>, members: set<T>, x: T)
    requires Lists(s, members) && x !in members
    ensures Lists(s + [x], members + {x})
  {
    assert x in s <==> x in Elements(s);
  }

  lemma NoElements<T>(s: seq<T>)
    ensures Elements(s) == {} ==> s == []
  {
    if s != [] {
      assert s[0] in Elements(s);
    }
  }

  /** Two strictly ascending sequences over the same elements are the same sequence:
      sorting erases the order in which the elements were collected. */
  lemma {:induction false} AscendingUnique(a: seq<string>, b: seq<string>)
    requires Ascends(a) && Ascends(b) && Elements(a) == Elements(b)
    ensures a == b
  {
    if a == [] {
      NoElements(b);
    } else {
      assert a[0] in Elements(b) && (b != [] ==> b[0] in Elements(a));
      if a[0] != b[0] {
        var i :| 0 <= i < |b| && b[i] == a[0];
        var j :| 0 <= j < |a| && a[j] == b[0];
        LessTransitive(a[0], b[0], a[0]);
        LessIrreflexive(a[0]);
        assert false;
      }
      AscendingTail(a);
      AscendingTail(b);
      assert Elements(a[1..]) == Elements(a) - {a[0]} == Elements(b[1..]);
      AscendingUnique(a[1..], b[1..]);
      assert a == [a[0]] + a[1..] && b == [b[0]] + b[1..];
    }
  }

  lemma AscendingTail(a: seq<string>)
    requires Ascends(a) && a != []
    ensures Ascends(a[1..]) && Elements(a[1..]) == Elements(a) - {a[0]}
  {
    LessIrreflexive(a[0]);
    assert a == [a[0]] + a[1..];
    assert a[0] !in a[1..];
  }

  function Insert<T>(key: T -> string, x: T, s: seq<T>): seq<T> {
    if s == [] || !Less(key(s[0]), key(x)) then [x] + s
    else [s[0]] + Insert(key, x, s[1..])
  }

  /** `sort.Sort` by a string key. */
  function SortBy<T>(key: T -> string, s: seq<T>): seq<T> {
    if s == [] then [] else Insert(key, s[0], SortBy(key, s[1..]))
  }

  function Keys<T>(key: T -> string, s: seq<T>): (r: seq<string>)
    ensures |r| == |s| && forall i :: 0 <= i < |s| ==> r[i] == key(s[i])
  {
    if s == [] then [] else [key(s[0])] + Keys(key, s[1..])
  }

  lemma AscendsCons(x: string, s: seq<string>)
    requires Ascends(s)
    requires forall y :: y in s ==> Less(x, y)
    ensures Ascends([x] + s)
  {
    var r := [x] + s;
    forall i, j | 0 <= i < j < |r| ensures Less(r[i], r[j]) {
      if i == 0 {
        assert r[j] in s;
      }
    }
  }

  lemma {:induction false} InsertKeys<T>(key: T -> string, x: T, s: seq<T>)
    ensures Keys(key, Insert(key, x, s)) == Insert(Self, key(x), Keys(key, s))
    ensures multiset(Insert(key, x, s)) == multiset(s) + multiset{x}
  {
    if s != [] {
      assert s == [s[0]] + s[1..];
      InsertKeys(key, x, s[1..]);
    }
  }

  lemma {:induction false} InsertAscends(x: string, s: seq<string>)
    requires Ascends(s) && x !in s
    ensures Ascends(Insert(Self, x, s))
    ensures Elements(Insert(Self, x, s)) == Elements(s) + {x}
  {
    if s == [] {
    } else if !Less(s[0], x) {
      LessTotal(s[0], x);
      forall y | y in s ensures Less(x, y) {
        if y != s[0] {
          LessTransitive(x, s[0], y);
        }
      }
      AscendsCons(x, s);
    } else {
      AscendingTail(s);
      InsertAscends(x, s[1..]);
      var t := Insert(Self, x, s[1..]);
      forall y | y in t ensures Less(s[0], y) {
        assert y in Elements(t);
      }
      AscendsCons(s[0], t);
      assert Elements([s[0]] + t) == {s[0]} + Elements(t);
    }
  }

  lemma {:induction false} SortByAscends<T>(key: T -> string, s: seq<T>)
    requires Distinct(Keys(key, s))
    ensures Ascends(Keys(key, SortBy(key, s)))
    ensures Elements(Keys(key, SortBy(key, s))) == Elements(Keys(key, s))
    ensures multiset(SortBy(key, s)) == multiset(s)
  {
    if s != [] {
      var k := Keys(key, s);
      assert Keys(key, s[1..]) == k[1..];
      SortByAscends(key, s[1..]);
      assert k[0] !in Elements(k[1..]);
      InsertKeys(key, s[0], SortBy(key, s[1..]));
      InsertAscends(k[0], Keys(key, SortBy(key, s[1..])));
      assert s == [s[0]] + s[1..] && k == [k[0]] + k[1..];
    }
  }

  lemma {:induction false} InsertOrdered(x: string, s: seq<string>)
    requires Ordered(s)
    ensures Ordered(Insert(Self, x, s)) && multiset(Insert(Self, x, s)) == multiset(s) + multiset{x}
  {
    if s != [] {
      assert s == [s[0]] + s[1..];
      if Less(s[0], x) {
        InsertOrdered(x, s[1..]);
        var t := Insert(Self, x, s[1..]);
        forall y | y in t ensures !Less(y, s[0]) {
          assert y in multiset(t);
          NotBefore(s, x, y);
        }
        OrderedCons(s[0], t);
      } else {
        forall y | y in s ensures !Less(y, x) {
          NotLess(s, x, y);
        }
        OrderedCons(x, s);
      }
    }
  }

  lemma NotBefore(s: seq<string>, x: string, y: string)
    requires s != [] && Ordered(s) && Less(s[0], x) && (y in s[1..] || y == x)
    ensures !Less(y, s[0])
  {
    if y == x && Less(x, s[0]) {
      LessTransitive(x, s[0], x);
      LessIrreflexive(x);
    }
  }

  lemma NotLess(s: seq<string>, x: string, y: string)
    requires s != [] && Ordered(s) && !Less(s[0], x) && y in s
    ensures !Less(y, x)
  {
    if Less(y, x) {
      LessTotal(s[0], x);
      if s[0] != x {
        LessTransitive(y, x, s[0]);
      }
    }
  }

  lemma OrderedCons(x: string, s: seq<string>)
    requires Ordered(s) && forall y :: y in s ==> !Less(y, x)
    ensures Ordered([x] + s)
  {
    var r := [x] + s;
    forall i, j | 0 <= i < j < |r| ensures !Less(r[j], r[i]) {
      if i == 0 {
        assert r[j] in s;
      }
    }
  }

  /** Sorting orders the keys and keeps the entries. */
  lemma {:induction false} SortByOrders<T>(key: T -> string, s: seq<T>)
    ensures Ordered(Keys(key, SortBy(key, s))) && multiset(SortBy(key, s)) == multiset(s)
  {
    hide Insert;
    if s != [] {
      SortByOrders(key, s[1..]);
      InsertOrders(key, s[0], SortBy(key, s[1..]));
      assert s == [s[0]] + s[1..];
    }
  }

  lemma InsertOrders<T>(key: T -> string, x: T, s: seq<T>)
    requires Ordered(Keys(key, s))
    ensures Ordered(Keys(key, Insert(key, x, s))) && multiset(Insert(key, x, s)) == multiset(s) + multiset{x}
  {
    hide Insert, Ordered;
    InsertKeys(key, x, s);
    InsertOrdered(key(x), Keys(key, s));
  }

  lemma ElementsConcat<T>(a: seq<T>, b: seq<T>)
    ensures Elements(a + b) == Elements(a) + Elements(b)
  {
    assert forall x :: x in a + b <==> x in a || x in b;
  }

  lemma KeysConcat<T>(key: T -> string, a: seq<T>, b: seq<T>)
    ensures Keys(key, a + b) == Keys(key, a) + Keys(key, b)
    ensures Elements(Keys(key, a + b)) == Elements(Keys(key, a)) + Elements(Keys(key, b))
  {
    var k, l := Keys(key, a), Keys(key, b);
    assert Keys(key, a + b) == k + l;
    ElementsConcat(k, l);
  }

  lemma KeysAppend<T>(key: T -> string, s: seq<T>, x: T)
    ensures Keys(key, s + [x]) == Keys(key, s) + [key(x)]
    ensures Elements(Keys(key, s + [x])) == Elements(Keys(key, s)) + {key(x)}
  {
    hide Elements;
    KeysConcat(key, s, [x]);
    KeysOne(key, x);
  }

  lemma KeysOne<T>(key: T -> string, x: T)
    ensures Keys(key, [x]) == [key(x)] && Elements(Keys(key, [x])) == {key(x)}
  {
    assert Keys(key, [x]) == [key(x)];
  }

  /** Lists with the same entries have the same keys. */
  lemma SameEntriesKeys<T>(key: T -> string, a: seq<T>, b: seq<T>)
    requires forall x :: x in a ==> x in b
    ensures Elements(Keys(key, a)) <= Elements(Keys(key, b))
  {
    var k, l := Keys(key, a), Keys(key, b);
    forall id | id in Elements(k) ensures id in Elements(l) {
      var i :| 0 <= i < |k| && k[i] == id;
      assert a[i] in b;
      var j :| 0 <= j < |b| && b[j] == a[i];
      assert l[j] == id;
    }
  }

  function Self(s: string): string { s }

  /** sort.Strings. */
  function SortStrings(s: seq<string>): seq<string> {
    SortBy(Self, s)
  }

  lemma KeysSelf(s: seq<string>)
    ensures Keys(Self, s) == s
  {
  }

  /** The ascending listing of a finite set of strings. */
  ghost function Ascending(s: set<string>): (r: seq<string>)
    ensures Ascends(r) && Elements(r) == s && |r| == |s|
  {
    if s == {} then []
    else
      var x :| x in s;
      var rest := Ascending(s - {x});
      assert x !in Elements(rest);
      InsertAscends(x, rest);
      var r := Insert(Self, x, rest);
      AscendsDistinct(r);
      DistinctSize(r);
      r
  }

  /** The listing starts with the least member. */
  lemma AscendingLeast(names: set<string>)
    requires names != {}
    ensures Ascending(names) != [] && Ascending(names)[0] in names
    ensures forall n :: n in names ==> n == Ascending(names)[0] || Less(Ascending(names)[0], n)
  {
    var r := Ascending(names);
    var x :| x in names;
    assert x in Elements(r);
    assert r[0] in Elements(r);
    forall n | n in names ensures n == r[0] || Less(r[0], n) {
      assert n in Elements(r);
    }
  }

  lemma AscendsDistinct(s: seq<string>)
    requires Ascends(s)
    ensures Distinct(s)
  {
    forall i, j | 0 <= i < j < |s| ensures s[i] != s[j] {
      LessIrreflexive(s[i]);
    }
  }

  lemma AscendingOne(x: string)
    ensures Ascending({x}) == [x]
  {
    var r := Ascending({x});
    assert r[0] in Elements(r);
  }

  /** sort.Strings gives the ascending listing, however the distinct strings were collected. */
  lemma SortStringsAscending(s: seq<string>, members: set<string>)
    requires Lists(s, members)
    ensures SortStrings(s) == Ascending(members)
  {
    KeysSelf(s);
    SortByAscends(Self, s);
    var r := SortStrings(s);
    KeysSelf(r);
    AscendingUnique(r, Ascending(members));
  }

  /** Ranging over a map and sorting its keys: the order of the range does not show. */
  method SortedKeys(keys: set<string>) returns (sorted: seq<string>)
    ensures sorted == Ascending(keys)
  {
    hide Lists, SortStrings;
    sorted := [];
    NothingListed<string>();
    var rest := keys;
    assert keys - rest == {};
    while rest != {}
      invariant rest <= keys && Lists(sorted, keys - rest)
    {
      var key :| key in rest;
      ghost var before := keys - rest;
      ListsNext(sorted, before, key);
      rest := rest - {key};
      assert keys - rest == before + {key};
      sorted := sorted + [key];
    }
    assert keys - rest == keys;
    SortStringsAscending(sorted, keys);
    sorted := SortStrings(sorted);
  }

  function Reverse<T>(s: seq<T>): (r: seq<T>)
    ensures |r| == |s| && forall i :: 0 <= i < |s| ==> r[i] == s[|s| - 1 - i]
  {
    if s == [] then [] else Reverse(s[1..]) + [s[0]]
  }

  // ----- loops that append

  /** What a loop over s gathers when it appends f(x) for each x. */
  function Collect<T, R>(f: T -> seq<R>, s: seq<T>): seq<R> {
    if s == [] then [] else Collect(f, s[..|s| - 1]) + f(s[|s| - 1])
  }

  lemma CollectNone<T, R>(f: T -> seq<R>, s: seq<T>)
    ensures Collect(f, s[..0]) == []
  {
  }

  lemma CollectNext<T, R>(f: T -> seq<R>, s: seq<T>, i: nat)
    requires i < |s|
    ensures Collect(f, s[..i + 1]) == Collect(f, s[..i]) + f(s[i])
  {
    assert s[..i + 1][..i] == s[..i];
  }

  lemma CollectAll<T, R>(f: T -> seq<R>, s: seq<T>)
    ensures Collect(f, s[..|s|]) == Collect(f, s)
  {
    assert s[..|s|] == s;
  }

  lemma {:induction false} CollectMember<T, R>(f: T -> seq<R>, s: seq<T>, y: R)
    ensures y in Collect(f, s) <==> exists x :: x in s && y in f(x)
  {
    if s != [] {
      var n := |s| - 1;
      CollectMember(f, s[..n], y);
      assert s == s[..n] + [s[n]];
    }
  }
}
