/** Notification URLs: the splitter (internal/flags/flags.go) against the writer
    (cmd/notify-upgrade.go). */
module NotificationUrls {
  import opened Text

  // ----- the writer

  const VARIABLE := "WATCHTOWER_NOTIFICATION_URL="

  function Written(urls: seq<string>): string {
    if urls == [] then ""
    else
      var n := |urls| - 1;
      if n == 0 then urls[0] else Written(urls[..n]) + " " + urls[n]
  }

  lemma {:induction false} WrittenJoins(urls: seq<string>)
    ensures Written(urls) == Join(urls, ' ')
  {
    hide Join;
    if |urls| > 1 {
      var n := |urls| - 1;
      WrittenJoins(urls[..n]);
      JoinAppend(urls[..n], urls[n], ' ');
      assert urls == urls[..n] + [urls[n]];
    } else if urls != [] {
      assert urls == [urls[0]];
      JoinOne(urls[0], ' ');
    } else {
      JoinNothing(' ');
    }
  }

  lemma JoinNothing(sep: char)
    ensures Join([], sep) == ""
  {
  }

  method WriteURLs(urls: seq<string>) returns (line: string)
    ensures line == VARIABLE + Written(urls)
    ensures line == "WATCHTOWER_NOTIFICATION_URL=" + Join(urls, ' ')
  {
    WrittenJoins(urls);
    line := VARIABLE;
    for i := 0 to |urls|
      invariant line == VARIABLE + Written(urls[..i])
    {
      assert urls[..i + 1][..i] == urls[..i];
      if i != 0 {
        line := line + " ";
      }
      line := line + urls[i];
    }
    assert urls[..|urls|] == urls;
  }

  // ----- the splitter

  datatype Delimiter = Comma | Space

  datatype Part = Part(text: string, delimiter: Delimiter)

  /** The state of the scan: the finished parts, the one being read, and the delimiter before it. */
  datatype Scanner = Scanner(parts: seq<Part>, current: string, last: Delimiter) {
    function Flushed(): seq<Part> {
      parts + if current != "" then [Part(current, last)] else []
    }
  }

  function Step(s: Scanner, c: char): Scanner {
    if c == ',' then Scanner(s.Flushed(), "", Comma)
    else if c == ' ' then Scanner(s.Flushed(), "", Space)
    else s.(current := s.current + [c])
  }

  function Scan(value: string): Scanner {
    if value == "" then Scanner([], "", Space) else Step(Scan(value[..|value| - 1]), value[|value| - 1])
  }

  const SCHEME_MARK := "://"

  /** Takes one more part: a comma part without a scheme continues the previous URL. */
  function Recombined(urls: seq<string>, part: Part): seq<string> {
    var text, n := TrimSpace(part.text), |urls| - 1;
    if text == "" then urls
    else if part.delimiter == Comma && urls != [] && !Contains(text, SCHEME_MARK)
    then urls[..n] + [urls[n] + "," + text]
    else urls + [text]
  }

  function Recombine(parts: seq<Part>): seq<string> {
    if parts == [] then [] else Recombined(Recombine(parts[..|parts| - 1]), parts[|parts| - 1])
  }

  function SplitURLs(value: string): seq<string> {
    Recombine(Scan(value).Flushed())
  }

  method ScanParts(value: string) returns (parts: seq<Part>)
    ensures parts == Scan(value).Flushed()
  {
    var current, last := "", Space;
    parts := [];
    for i := 0 to |value|
      invariant Scanner(parts, current, last) == Scan(value[..i])
    {
      assert value[..i + 1][..i] == value[..i];
      match value[i] {
        case ',' =>
          if |current| > 0 {
            parts, current := parts + [Part(current, last)], "";
          }
          last := Comma;
        case ' ' =>
          if |current| > 0 {
            parts, current := parts + [Part(current, last)], "";
          }
          last := Space;
        case c =>
          current := current + [c];
      }
    }
    assert value[..|value|] == value;
    if |current| > 0 {
      parts := parts + [Part(current, last)];
    }
  }

  method SplitNotificationValues(value: string) returns (urls: seq<string>)
    ensures urls == SplitURLs(value)
  {
    hide Contains, TrimSpace, Scan;
    var parts := ScanParts(value);
    urls := [];
    for i := 0 to |parts|
      invariant urls == Recombine(parts[..i])
    {
      assert parts[..i + 1][..i] == parts[..i];
      var text := TrimSpace(parts[i].text);
      if text == "" {
        continue;
      }
      if parts[i].delimiter == Comma && |urls| > 0 && !Contains(text, SCHEME_MARK) {
        urls := urls[..|urls| - 1] + [urls[|urls| - 1] + "," + text];
      } else {
        urls := urls + [text];
      }
    }
    assert parts[..|parts|] == parts;
  }

  // ----- the scan finds words, and comma segments within words

  function SegmentParts(segments: seq<string>): seq<Part> {
    if segments == [] then []
    else
      var n := |segments| - 1;
      SegmentParts(segments[..n])
      + if segments[n] == "" then [] else [Part(segments[n], if n == 0 then Space else Comma)]
  }

  function WordParts(word: string): seq<Part> {
    SegmentParts(Split(word, ','))
  }

  lemma SegmentPartsNext(segments: seq<string>, s: string)
    ensures SegmentParts(segments + [s]) ==
            SegmentParts(segments) + if s == "" then [] else [Part(s, if segments == [] then Space else Comma)]
  {
    assert (segments + [s])[..|segments|] == segments;
  }

  /** Where the scan stands when the text so far has these words and the last of them these segments. */
  function At(words: seq<string>, segments: seq<string>): Scanner
    requires words != [] && segments != []
  {
    var w, m := |words| - 1, |segments| - 1;
    Scanner(Collect(WordParts, words[..w]) + SegmentParts(segments[..m]), segments[m], if m == 0 then Space else Comma)
  }

  lemma AtFlushed(words: seq<string>)
    requires words != []
    ensures At(words, Split(words[|words| - 1], ',')).Flushed() == Collect(WordParts, words)
  {
    hide SegmentParts, Split;
    var w := |words| - 1;
    SegmentsFlushed(words, Split(words[w], ','));
  }

  lemma SegmentsFlushed(words: seq<string>, segments: seq<string>)
    requires words != [] && segments != []
    ensures At(words, segments).Flushed() == Collect(WordParts, words[..|words| - 1]) + SegmentParts(segments)
  {
    hide Collect;
    var m := |segments| - 1;
    SegmentPartsNext(segments[..m], segments[m]);
    assert segments[..m] + [segments[m]] == segments;
  }

  lemma AtStep(words: seq<string>, c: char)
    requires words != []
    ensures var w := |words| - 1;
            var longer := SplitStep(words, c, ' ');
            Step(At(words, Split(words[w], ',')), c) == At(longer, Split(longer[|longer| - 1], ','))
  {
    hide Collect;
    var w := |words| - 1;
    var segments := Split(words[w], ',');
    if c == ' ' {
      AtFlushed(words);
      assert (words + [""])[..w + 1] == words;
    } else {
      SplitSnoc(words[w], c, ',');
      assert SplitStep(words, c, ' ')[..w] == words[..w];
      SegmentsStep(words, segments, c);
    }
  }

  lemma SegmentsStep(words: seq<string>, segments: seq<string>, c: char)
    requires words != [] && segments != [] && c != ' '
    ensures Step(At(words, segments), c) == At(words, SplitStep(segments, c, ','))
  {
    hide Collect;
    var m := |segments| - 1;
    if c == ',' {
      SegmentPartsNext(segments[..m], segments[m]);
      assert segments[..m] + [segments[m]] == segments;
      assert (segments + [""])[..m + 1] == segments;
    } else {
      assert SplitStep(segments, c, ',')[..m] == segments[..m];
    }
  }

  lemma {:induction false} ScanState(value: string)
    ensures var words := Split(value, ' ');
            Scan(value) == At(words, Split(words[|words| - 1], ','))
  {
    hide At, Step, Split, SplitStep;
    if value == "" {
      NothingScanned();
    } else {
      var before, c := value[..|value| - 1], value[|value| - 1];
      ScanState(before);
      assert value == before + [c];
      SplitSnoc(before, c, ' ');
      AtStep(Split(before, ' '), c);
    }
  }

  lemma NothingScanned()
    ensures Split("", ' ') == [""] && Scan("") == At([""], Split("", ','))
  {
  }

  lemma PartsOfWords(value: string)
    ensures Scan(value).Flushed() == Collect(WordParts, Split(value, ' '))
  {
    ScanState(value);
    AtFlushed(Split(value, ' '));
  }

  function Words(url: string): seq<string> {
    Split(url, ' ')
  }

  /** The words of the written text are those of the URLs, in order. */
  lemma {:induction false} WrittenWords(urls: seq<string>)
    requires urls != []
    ensures Split(Written(urls), ' ') == Collect(Words, urls)
  {
    var n := |urls| - 1;
    if n == 0 {
      assert urls[..0] == [];
    } else {
      WrittenWords(urls[..n]);
      SplitConcat(Written(urls[..n]), urls[n], ' ');
    }
  }

  // ----- the weight of a list: what the splitter keeps of it

  function Weight(texts: seq<string>): nat {
    if texts == [] then 0 else Weight(texts[..|texts| - 1]) + |texts[|texts| - 1]| + 1
  }

  lemma {:induction false} WeightConcat(a: seq<string>, b: seq<string>)
    ensures Weight(a + b) == Weight(a) + Weight(b)
  {
    if b == [] {
      assert a + b == a;
    } else {
      WeightConcat(a, b[..|b| - 1]);
      assert (a + b)[..|a + b| - 1] == a + b[..|b| - 1];
    }
  }

  lemma {:induction false} SplitWeight(s: string, sep: char)
    ensures Weight(Split(s, sep)) == |s| + 1
  {
    if s != "" {
      var n := |s| - 1;
      SplitWeight(s[..n], sep);
      SplitSnoc(s[..n], s[n], sep);
      assert s == s[..n] + [s[n]];
      var parts := Split(s[..n], sep);
      if s[n] == sep {
        assert (parts + [""])[..|parts|] == parts;
      } else {
        assert (parts[..|parts| - 1] + [parts[|parts| - 1] + [s[n]]])[..|parts| - 1] == parts[..|parts| - 1];
      }
    }
  }

  lemma {:induction false} WrittenWeight(urls: seq<string>)
    requires urls != []
    ensures Weight(urls) == |Written(urls)| + 1
  {
    var n := |urls| - 1;
    if n == 0 {
      assert Weight(urls[..0]) == 0;
    } else {
      WrittenWeight(urls[..n]);
    }
  }

  /** What a segment adds to the weight of the result. */
  function Gain(segment: string): nat {
    if TrimSpace(segment) == "" then 0 else |TrimSpace(segment)| + 1
  }

  function GainOf(segments: seq<string>): nat {
    if segments == [] then 0 else GainOf(segments[..|segments| - 1]) + Gain(segments[|segments| - 1])
  }

  function GainOfWords(words: seq<string>): nat {
    if words == [] then 0
    else GainOfWords(words[..|words| - 1]) + GainOf(Split(words[|words| - 1], ','))
  }

  /** A segment the splitter keeps as it is. */
  predicate Kept(segment: string) {
    segment != "" && TrimSpace(segment) == segment
  }

  lemma {:induction false} TrimLeftShortens(s: string)
    ensures |TrimLeft(s)| <= |s| && (|TrimLeft(s)| == |s| ==> TrimLeft(s) == s)
  {
    if s != "" && IsSpace(s[0]) {
      TrimLeftShortens(s[1..]);
    }
  }

  lemma {:induction false} TrimRightShortens(s: string)
    ensures |TrimRight(s)| <= |s| && (|TrimRight(s)| == |s| ==> TrimRight(s) == s)
  {
    if s != "" && IsSpace(s[|s| - 1]) {
      TrimRightShortens(s[..|s| - 1]);
    }
  }

  lemma GainBounded(segment: string)
    ensures Gain(segment) <= |segment| + 1
    ensures Gain(segment) == |segment| + 1 <==> Kept(segment)
  {
    TrimLeftShortens(segment);
    TrimRightShortens(TrimLeft(segment));
  }

  lemma {:induction false} GainOfBounded(segments: seq<string>)
    ensures GainOf(segments) <= Weight(segments)
    ensures GainOf(segments) == Weight(segments) <==> forall s :: s in segments ==> Kept(s)
  {
    hide Gain, Kept;
    if segments != [] {
      var n := |segments| - 1;
      GainOfBounded(segments[..n]);
      GainBounded(segments[n]);
      assert segments == segments[..n] + [segments[n]];
    }
  }

  ghost predicate WordKept(word: string) {
    forall s :: s in Split(word, ',') ==> Kept(s)
  }

  lemma {:induction false} GainOfWordsBounded(words: seq<string>)
    ensures GainOfWords(words) <= Weight(words)
    ensures GainOfWords(words) == Weight(words) <==> forall w :: w in words ==> WordKept(w)
  {
    hide Kept, GainOf, Split;
    if words != [] {
      var n := |words| - 1;
      GainOfWordsBounded(words[..n]);
      GainOfBounded(Split(words[n], ','));
      SplitWeight(words[n], ',');
      assert words == words[..n] + [words[n]];
      assert WordKept(words[n]) <==> GainOf(Split(words[n], ',')) == |words[n]| + 1;
      assert (forall w :: w in words ==> WordKept(w)) <==>
             WordKept(words[n]) && forall w :: w in words[..n] ==> WordKept(w);
    }
  }

  lemma RecombinedWeight(urls: seq<string>, part: Part)
    ensures Weight(Recombined(urls, part)) == Weight(urls) + Gain(part.text)
  {
    hide Contains, TrimSpace;
    var text, n := TrimSpace(part.text), |urls| - 1;
    var r := Recombined(urls, part);
    if r != urls {
      assert r[..|r| - 1] == if |r| == |urls| then urls[..n] else urls;
    }
  }

  lemma RecombineNext(parts: seq<Part>, part: Part)
    ensures Recombine(parts + [part]) == Recombined(Recombine(parts), part)
  {
    assert (parts + [part])[..|parts|] == parts;
  }

  lemma NoParts()
    ensures Recombine([]) == []
  {
  }

  lemma {:induction false} SegmentsWeight(before: seq<Part>, segments: seq<string>)
    ensures Weight(Recombine(before + SegmentParts(segments))) == Weight(Recombine(before)) + GainOf(segments)
  {
    hide Recombined, Recombine, Weight;
    if segments == [] {
      assert before + SegmentParts(segments) == before;
    } else {
      var n := |segments| - 1;
      SegmentsWeight(before, segments[..n]);
      var shorter := before + SegmentParts(segments[..n]);
      if segments[n] == "" {
        assert before + SegmentParts(segments) == shorter;
      } else {
        var part := Part(segments[n], if n == 0 then Space else Comma);
        assert before + SegmentParts(segments) == shorter + [part];
        RecombineNext(shorter, part);
        RecombinedWeight(Recombine(shorter), part);
      }
    }
  }

  lemma {:induction false} WordsWeight(words: seq<string>)
    ensures Weight(Recombine(Collect(WordParts, words))) == GainOfWords(words)
  {
    hide Recombine;
    if words == [] {
      NoParts();
    } else {
      var n := |words| - 1;
      WordsWeight(words[..n]);
      SegmentsWeight(Collect(WordParts, words[..n]), Split(words[n], ','));
    }
  }

  // ----- the length of the result

  /** How many later segments open a URL of their own. */
  function Breaks(segments: seq<string>): nat {
    if |segments| <= 1 then 0
    else Breaks(segments[..|segments| - 1]) + if Contains(segments[|segments| - 1], SCHEME_MARK) then 1 else 0
  }

  /** No segment after a comma has a scheme. */
  predicate Unbroken(segments: seq<string>) {
    forall i :: 0 < i < |segments| ==> !Contains(segments[i], "://")
  }

  lemma {:induction false} BreaksNone(segments: seq<string>)
    ensures Breaks(segments) == 0 <==> Unbroken(segments)
  {
    hide Contains;
    if |segments| > 1 {
      BreaksNone(segments[..|segments| - 1]);
    }
  }

  function BreaksOfWords(words: seq<string>): nat {
    if words == [] then 0 else BreaksOfWords(words[..|words| - 1]) + Breaks(Split(words[|words| - 1], ','))
  }

  /** Segments that are kept make one URL, plus one for each later segment with a scheme. */
  lemma {:induction false} SegmentsLength(before: seq<Part>, segments: seq<string>)
    requires segments != [] && forall s :: s in segments ==> Kept(s)
    ensures |Recombine(before + SegmentParts(segments))| == |Recombine(before)| + 1 + Breaks(segments)
  {
    hide Contains, TrimSpace, Recombine;
    var n := |segments| - 1;
    assert segments[n] in segments;
    var part := Part(segments[n], if n == 0 then Space else Comma);
    var shorter := before + SegmentParts(segments[..n]);
    assert before + SegmentParts(segments) == shorter + [part];
    RecombineNext(shorter, part);
    if n == 0 {
      assert shorter == before;
    } else {
      SegmentsLength(before, segments[..n]);
    }
  }

  lemma {:induction false} WordsLength(words: seq<string>)
    requires forall w :: w in words ==> WordKept(w)
    ensures |Recombine(Collect(WordParts, words))| == |words| + BreaksOfWords(words)
  {
    hide Recombine, Kept, Breaks;
    if words == [] {
      NoParts();
    } else {
      var n := |words| - 1;
      assert words[n] in words;
      WordsLength(words[..n]);
      SegmentsLength(Collect(WordParts, words[..n]), Split(words[n], ','));
    }
  }

  // ----- the round trip

  /** No space, no empty or padded comma segment, and no "://" in a segment after a comma. */
  predicate Survives(url: string) {
    var segments := Split(url, ',');
    && ' ' !in url
    && (forall s :: s in segments ==> Kept(s))
    && Unbroken(segments)
  }

  /** One surviving URL comes back whole, whatever came before it. */
  lemma {:induction false} SegmentsRejoined(before: seq<Part>, segments: seq<string>)
    requires segments != [] && forall s :: s in segments ==> Kept(s)
    requires Unbroken(segments)
    ensures Recombine(before + SegmentParts(segments)) == Recombine(before) + [Join(segments, ',')]
  {
    hide Contains, TrimSpace, Recombine, Join;
    var n := |segments| - 1;
    assert segments[n] in segments;
    var part := Part(segments[n], if n == 0 then Space else Comma);
    var shorter := before + SegmentParts(segments[..n]);
    assert before + SegmentParts(segments) == shorter + [part];
    RecombineNext(shorter, part);
    assert segments == segments[..n] + [segments[n]];
    if n == 0 {
      assert shorter == before;
      assert segments == [segments[0]];
      JoinOne(segments[0], ',');
    } else {
      SegmentsRejoined(before, segments[..n]);
      JoinAppend(segments[..n], segments[n], ',');
    }
  }

  lemma {:induction false} SurvivorsComeBack(urls: seq<string>)
    requires forall u :: u in urls ==> Survives(u)
    ensures Collect(Words, urls) == urls && Recombine(Collect(WordParts, urls)) == urls
  {
    hide Contains, Recombine, Kept;
    if urls == [] {
      NoParts();
    } else {
      var n := |urls| - 1;
      assert urls[n] in urls && urls == urls[..n] + [urls[n]];
      SurvivorsComeBack(urls[..n]);
      SplitWhole(urls[n], ' ');
      SegmentsRejoined(Collect(WordParts, urls[..n]), Split(urls[n], ','));
      JoinSplit(urls[n], ',');
    }
  }

  lemma {:induction false} SpacesAddWords(urls: seq<string>)
    ensures |Collect(Words, urls)| >= |urls|
    ensures |Collect(Words, urls)| == |urls| ==> Collect(Words, urls) == urls && forall u :: u in urls ==> ' ' !in u
  {
    if urls != [] {
      var n := |urls| - 1;
      SpacesAddWords(urls[..n]);
      assert urls == urls[..n] + [urls[n]];
      JoinSplit(urls[n], ' ');
      OneWord(urls[n]);
    }
  }

  lemma OneWord(url: string)
    ensures |Split(url, ' ')| == 1 ==> ' ' !in url && Split(url, ' ') == [url]
  {
    if |Split(url, ' ')| == 1 {
      SplitParts(url, ' ');
      JoinSplit(url, ' ');
      assert Split(url, ' ')[0] in Split(url, ' ');
    }
  }

  /** Round trip: splitting the written text returns the list exactly when every URL survives. */
  lemma RoundTrip(urls: seq<string>)
    ensures SplitURLs(Written(urls)) == urls <==> forall u :: u in urls ==> Survives(u)
  {
    hide Recombine, Contains, Scan, Survives;
    if urls == [] {
      NothingWritten();
    } else {
      var words := Split(Written(urls), ' ');
      PartsOfWords(Written(urls));
      WrittenWords(urls);
      if forall u :: u in urls ==> Survives(u) {
        SurvivorsComeBack(urls);
      }
      if SplitURLs(Written(urls)) == urls {
        OnlySurvivorsComeBack(urls);
      }
    }
  }

  lemma NothingWritten()
    ensures SplitURLs(Written([])) == []
  {
  }

  lemma OnlySurvivorsComeBack(urls: seq<string>)
    requires urls != [] && Recombine(Collect(WordParts, Collect(Words, urls))) == urls
    ensures forall u :: u in urls ==> Survives(u)
  {
    hide Recombine, Contains, Kept, Collect, Weight, GainOfWords, BreaksOfWords, Breaks;
    var words := Collect(Words, urls);
    WrittenWords(urls);
    WrittenWeight(urls);
    SplitWeight(Written(urls), ' ');
    WordsWeight(words);
    GainOfWordsBounded(words);
    WordsLength(words);
    SpacesAddWords(urls);
    assert words == urls && BreaksOfWords(urls) == 0;
    forall u | u in urls ensures Survives(u) {
      assert WordKept(u);
      NoBreaks(urls, u);
      BreaksNone(Split(u, ','));
    }
  }

  lemma {:induction false} NoBreaks(words: seq<string>, w: string)
    requires BreaksOfWords(words) == 0 && w in words
    ensures Breaks(Split(w, ',')) == 0
  {
    hide Breaks, Split;
    var n := |words| - 1;
    if w != words[n] {
      assert words == words[..n] + [words[n]];
      NoBreaks(words[..n], w);
    }
  }

  lemma {:induction false} SegmentsSpaceFree(s: string, sep: char)
    requires SpaceFree(s)
    ensures forall p :: p in Split(s, sep) ==> SpaceFree(p)
  {
    if s != "" {
      var rest := Split(s[1..], sep);
      assert s[0] in s && rest[0] in rest;
      SegmentsSpaceFree(s[1..], sep);
      forall p | p in Split(s, sep) ensures SpaceFree(p) {
        assert p in rest || p == "" || p == [s[0]] + rest[0];
      }
    }
  }

  /** For a URL without whitespace, the case the writer is made for, only its commas matter. */
  lemma WhitespaceFreeSurvives(url: string)
    requires SpaceFree(url)
    ensures Survives(url) <==>
            (forall s :: s in Split(url, ',') ==> s != "") && Unbroken(Split(url, ','))
  {
    hide TrimSpace, Split, IsSpace, Unbroken;
    SegmentsSpaceFree(url, ',');
    forall s | s in Split(url, ',') ensures Kept(s) <==> s != "" {
      TrimSpaceFree(s);
    }
    SpaceIsSpace();
  }

  lemma SpaceIsSpace()
    ensures IsSpace(' ')
  {
    assert "\t\n\r "[3] == ' ';
  }
}
