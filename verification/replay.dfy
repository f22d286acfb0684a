/// Input logs: frame-indexed key events, their text form and how it is read back.
module Replay {
  import opened Options

  const MAX_FRAME := 0x1_0000_0000
  const MAX_KEYS := 0x1_0000

  datatype Event = Event(frame: nat, keys: nat)

  /** Sorted by frame, as every replay is kept. */
  predicate Sorted(es: seq<Event>) { forall i, j :: 0 <= i < j < |es| ==> es[i].frame <= es[j].frame }

  /** At most one event a frame. */
  predicate Increasing(es: seq<Event>) { forall i, j :: 0 <= i < j < |es| ==> es[i].frame < es[j].frame }

  // ------------------------------------------------------------------ the keys held

  /** The keys of the last of the leading events that are not after `frame`. */
  function KeysFrom(es: seq<Event>, frame: nat, keys: nat): nat {
    if es == [] || es[0].frame > frame then keys else KeysFrom(es[1..], frame, es[0].keys)
  }

  method KeysAt(es: seq<Event>, frame: nat) returns (keys: nat)
    ensures keys == KeysFrom(es, frame, 0)
  {
    keys := 0;
    var i := 0;
    while i < |es|
      invariant 0 <= i <= |es|
      invariant KeysFrom(es[i..], frame, keys) == KeysFrom(es, frame, 0)
    {
      if es[i].frame > frame {
        break;
      }
      keys := es[i].keys;
      assert es[i..][1..] == es[i + 1..];
      i := i + 1;
    }
  }

  /** In a sorted log the most recent event wins: the one at `i` holds until the next. */
  lemma {:induction false} KeysFromIs(es: seq<Event>, frame: nat, keys: nat, i: nat)
    requires Sorted(es) && i < |es| && es[i].frame <= frame && (i + 1 < |es| ==> frame < es[i + 1].frame)
    ensures KeysFrom(es, frame, keys) == es[i].keys
    decreases |es|
  {
    if i > 0 {
      KeysFromIs(es[1..], frame, es[0].keys, i - 1);
    } else if |es| > 1 {
      assert es[1..][0].frame > frame;
    }
  }

  /** What one more event at the end, not before any other, changes. */
  lemma {:induction false} KeysAppend(es: seq<Event>, e: Event, frame: nat, keys: nat)
    requires Sorted(es) && forall i :: 0 <= i < |es| ==> es[i].frame <= e.frame
    ensures KeysFrom(es + [e], frame, keys) == if frame >= e.frame then e.keys else KeysFrom(es, frame, keys)
    decreases |es|
  {
    if es != [] {
      assert (es + [e])[1..] == es[1..] + [e] && (es + [e])[0] == es[0];
      KeysAppend(es[1..], e, frame, es[0].keys);
    }
  }

  // ------------------------------------------------------------------ numbers as text

  predicate IsSpace(c: char) { c == ' ' || '\t' <= c <= '\r' }

  function Digit(d: nat): char
    requires d < 16
  {
    "0123456789abcdef"[d]
  }

  function DigitValue(c: char): nat {
    if '0' <= c <= '9' then c as nat - '0' as nat
    else if 'a' <= c <= 'f' then c as nat - 'a' as nat + 10
    else if 'A' <= c <= 'F' then c as nat - 'A' as nat + 10
    else 16
  }

  function PrintDecimal(n: nat): string {
    if n < 10 then [Digit(n)] else PrintDecimal(n / 10) + [Digit(n % 10)]
  }

  /** Four lower-case hexadecimal digits, more for more than sixteen bits. */
  function PrintHex(n: nat, width: nat): string {
    if n < 16 && width <= 1 then [Digit(n)] else PrintHex(n / 16, if width > 0 then width - 1 else 0) + [Digit(n % 16)]
  }

  predicate AllDigits(s: string, radix: nat) { forall c :: c in s ==> DigitValue(c) < radix }

  function Fold(s: string, radix: nat): nat {
    if s == "" then 0 else radix * Fold(s[..|s| - 1], radix) + DigitValue(s[|s| - 1])
  }

  /** Digits with an optional plus sign, below `limit`. */
  function ParseNumber(s: string, radix: nat, limit: nat): Option<nat> {
    var digits := if s != "" && s[0] == '+' then s[1..] else s;
    if digits == "" || !AllDigits(digits, radix) || Fold(digits, radix) >= limit then None
        else Some(Fold(digits, radix))
  }

  // ------------------------------------------------------------------ the text form

  function PrintEvent(e: Event): string { PrintDecimal(e.frame) + " " + PrintHex(e.keys, 4) + "\n" }

  function Print(es: seq<Event>): string { if es == [] then "" else PrintEvent(es[0]) + Print(es[1..]) }

  /** Index of the first `c` in `s`, or the length of `s`. */
  function Find(s: string, c: char): (i: nat)
    ensures i <= |s|
  {
    if s == "" || s[0] == c then 0 else 1 + Find(s[1..], c)
  }

  function Chomped(s: string): string { if s != "" && s[|s| - 1] == '\r' then s[..|s| - 1] else s }

  function SplitLines(s: string): seq<string>
    decreases |s|
  {
    if s == "" then []
    else
      var i := Find(s, '\n');
      [Chomped(s[..i])] + if i < |s| then SplitLines(s[i + 1..]) else []
  }

  function WordLength(s: string): (i: nat)
    ensures i <= |s|
  {
    if s == "" || IsSpace(s[0]) then 0 else 1 + WordLength(s[1..])
  }

  function Words(s: string): seq<string>
    decreases |s|
  {
    if s == "" then []
    else if IsSpace(s[0]) then Words(s[1..])
    else [s[..WordLength(s)]] + Words(s[WordLength(s)..])
  }

  /** The event of a line, if it has one: comments, blank and malformed lines have none. */
  function ParseLine(line: string): seq<Event> {
    var words := Words(line[..Find(line, '#')]);
    if |words| < 2 then []
    else
      var frame, keys := ParseNumber(words[0], 10, MAX_FRAME), ParseNumber(words[1], 16, MAX_KEYS);
      if frame.Some? && keys.Some? then [Event(frame.value, keys.value)] else []
  }

  function ParseLines(lines: seq<string>): seq<Event> {
    if lines == [] then [] else ParseLine(lines[0]) + ParseLines(lines[1..])
  }

  /** The order of events of one frame is left open, as by an unstable sort. */
  method SortByFrame(es: seq<Event>) returns (r: seq<Event>)
    ensures Sorted(r) && multiset(r) == multiset(es)
  {
    r := [];
    for n := 0 to |es|
      invariant Sorted(r) && multiset(r) == multiset(es[..n])
    {
      var i := |r|;
      while i > 0 && r[i - 1].frame > es[n].frame
        invariant 0 <= i <= |r|
        invariant forall j :: i <= j < |r| ==> r[j].frame > es[n].frame
      {
        i := i - 1;
      }
      ghost var before := r;
      assert before == before[..i] + before[i..];
      assert es[..n + 1] == es[..n] + [es[n]];
      r := r[..i] + [es[n]] + r[i..];
      Inserted(before, es[n], i, r);
    }
    assert es[..|es|] == es;
  }

  lemma Inserted(r: seq<Event>, e: Event, i: nat, r': seq<Event>)
    requires i <= |r| && r' == r[..i] + [e] + r[i..] && Sorted(r)
    requires (i > 0 ==> r[i - 1].frame <= e.frame) && forall j :: i <= j < |r| ==> r[j].frame > e.frame
    ensures Sorted(r') && multiset(r') == multiset(r) + multiset([e])
  {
    InsertedCounts(r, e, i);
    InsertedSorted(r, e, i, r');
  }

  lemma InsertedCounts(r: seq<Event>, e: Event, i: nat)
    requires i <= |r|
    ensures multiset(r[..i] + [e] + r[i..]) == multiset(r) + multiset([e])
  {
    assert r == r[..i] + r[i..];
  }

  lemma InsertedSorted(r: seq<Event>, e: Event, i: nat, r': seq<Event>)
    requires i <= |r| && r' == r[..i] + [e] + r[i..] && Sorted(r)
    requires (i > 0 ==> r[i - 1].frame <= e.frame) && forall j :: i <= j < |r| ==> r[j].frame > e.frame
    ensures Sorted(r')
  {
    forall j, k | 0 <= j < k < |r'|
      ensures r'[j].frame <= r'[k].frame
    {
      assert r'[j] == if j < i then r[j] else if j == i then e else r[j - 1];
      assert r'[k] == if k < i then r[k] else if k == i then e else r[k - 1];
    }
  }

  method FromText(text: string) returns (r: seq<Event>)
    ensures Sorted(r) && multiset(r) == multiset(ParseLines(SplitLines(text)))
  {
    hide ParseLine, SplitLines, Sorted;
    var lines := SplitLines(text);
    r := [];
    for i := 0 to |lines|
      invariant r + ParseLines(lines[i..]) == ParseLines(lines)
    {
      r := r + ParseLine(lines[i]);
      assert lines[i..][1..] == lines[i + 1..];
    }
    r := SortByFrame(r);
  }

  // ------------------------------------------------------------------ reading back what was printed

  lemma {:induction false} DecimalDigits(n: nat)
    ensures AllDigits(PrintDecimal(n), 10) && PrintDecimal(n) != "" && Fold(PrintDecimal(n), 10) == n
  {
    DigitIs(n % 10);
    if n >= 10 {
      DecimalDigits(n / 10);
      var init := PrintDecimal(n / 10);
      assert (init + [Digit(n % 10)])[..|init|] == init;
    } else {
      assert [Digit(n)][..0] == "";
    }
  }

  lemma {:induction false} HexDigits(n: nat, width: nat)
    ensures AllDigits(PrintHex(n, width), 16) && PrintHex(n, width) != "" && Fold(PrintHex(n, width), 16) == n
    decreases n, width
  {
    DigitIs(n % 16);
    if n >= 16 || width > 1 {
      var init := PrintHex(n / 16, if width > 0 then width - 1 else 0);
      HexDigits(n / 16, if width > 0 then width - 1 else 0);
      assert (init + [Digit(n % 16)])[..|init|] == init;
    } else {
      assert [Digit(n)][..0] == "";
    }
  }

  lemma DigitIs(d: nat)
    requires d < 16
    ensures DigitValue(Digit(d)) == d
  {
  }

  /** Only digits stand in a printed number: no sign, space, comment or line break. */
  lemma DigitsAreDigits(s: string)
    requires AllDigits(s, 16)
    ensures forall c :: c in s ==> c != '+' && c != '#' && c != '\n' && c != '\r' && !IsSpace(c)
  {
  }

  lemma NumberParses(s: string, radix: nat, limit: nat)
    requires AllDigits(s, radix) && radix <= 16 && s != ""
    ensures ParseNumber(s, radix, limit) == if Fold(s, radix) < limit then Some(Fold(s, radix)) else None
  {
    assert s[0] in s;
  }

  lemma {:induction false} FindSkips(s: string, c: char, t: string)
    requires c !in s
    ensures Find(s + t, c) == |s| + Find(t, c)
  {
    if s == "" {
      assert s + t == t;
    } else {
      assert (s + t)[1..] == s[1..] + t;
      FindSkips(s[1..], c, t);
    }
  }

  lemma {:induction false} WordLengthIs(s: string, t: string)
    requires (forall c :: c in s ==> !IsSpace(c)) && (t != "" ==> IsSpace(t[0]))
    ensures WordLength(s + t) == |s|
  {
    if s == "" {
      assert s + t == t;
    } else {
      assert (s + t)[1..] == s[1..] + t && s[0] in s;
      WordLengthIs(s[1..], t);
    }
  }

  lemma WordsOfTwo(a: string, b: string)
    requires a != "" && b != "" && forall c :: c in a || c in b ==> !IsSpace(c)
    ensures Words(a + " " + b) == [a, b]
  {
    var rest := " " + b;
    assert a + " " + b == a + rest;
    WordLengthIs(a, rest);
    WordLengthIs(b, "");
    assert b + "" == b && rest[1..] == b && a[0] in a && b[0] in b;
    assert (a + rest)[..|a|] == a && (a + rest)[|a|..] == rest;
    assert Words(b) == [b] + Words("");
    assert Words(a + rest) == [a] + Words(rest);
  }

  function Line(e: Event): string { PrintDecimal(e.frame) + " " + PrintHex(e.keys, 4) }

  /** A printed line is read back as its event, unless the frame number does not fit. */
  lemma LineParses(e: Event)
    requires e.keys < MAX_KEYS
    ensures ParseLine(Line(e)) == if e.frame < MAX_FRAME then [e] else []
    ensures '\n' !in Line(e) && Chomped(Line(e)) == Line(e)
  {
    var a, b := PrintDecimal(e.frame), PrintHex(e.keys, 4);
    DecimalDigits(e.frame);
    HexDigits(e.keys, 4);
    hide PrintDecimal, PrintHex, Fold, Words, ParseNumber, Find;
    assert AllDigits(a, 16);
    DigitsAreDigits(a);
    DigitsAreDigits(b);
    NumberParses(a, 10, MAX_FRAME);
    NumberParses(b, 16, MAX_KEYS);
    hide AllDigits, DigitValue, IsSpace;
    WordsOfTwo(a, b);
    NoBreak(a, b);
  }

  lemma NoBreak(a: string, b: string)
    requires b != "" && forall c :: c in a || c in b ==> c != '#' && c != '\n' && c != '\r'
    ensures var s := a + " " + b;
            s[..Find(s, '#')] == s && '\n' !in s && Chomped(s) == s
  {
    var s := a + " " + b;
    FindSkips(s, '#', "");
    assert s + "" == s;
    assert b[|b| - 1] in b;
  }

  lemma SplitFirst(line: string, rest: string)
    requires '\n' !in line && Chomped(line) == line
    ensures SplitLines(line + "\n" + rest) == [line] + SplitLines(rest)
  {
    var s := line + "\n" + rest;
    assert s == line + ("\n" + rest);
    FindSkips(line, '\n', "\n" + rest);
    assert s[..|line|] == line && s[|line| + 1..] == rest;
  }

  /** A printed line: the frame in decimal, a space, the keys in hexadecimal with at least four
      digits, and a line break. */
  lemma PrintedLine(e: Event) returns (a: string, b: string)
    ensures PrintEvent(e) == a + " " + b + "\n"
    ensures AllDigits(a, 10) && a != "" && Fold(a, 10) == e.frame
    ensures AllDigits(b, 16) && |b| >= 4 && Fold(b, 16) == e.keys && (e.keys < MAX_KEYS ==> |b| == 4)
  {
    a, b := PrintDecimal(e.frame), PrintHex(e.keys, 4);
    DecimalDigits(e.frame);
    HexDigits(e.keys, 4);
    HexLength(e.keys, 4);
    hide PrintDecimal, PrintHex, AllDigits, Fold;
  }

  lemma {:induction false} HexLength(n: nat, width: nat)
    requires width > 0
    ensures |PrintHex(n, width)| >= width && (width <= 4 && n < [1, 16, 0x100, 0x1000, 0x1_0000][width] ==>
                                                |PrintHex(n, width)| == width)
    decreases n, width
  {
    if n >= 16 || width > 1 {
      if width > 1 {
        HexLength(n / 16, width - 1);
      }
    }
  }

  /** A comment runs from a hash to the end of its line. */
  lemma CommentIgnored(line: string, comment: string)
    requires '#' !in line
    ensures ParseLine(line + "#" + comment) == ParseLine(line)
  {
    FindSkips(line, '#', "#" + comment);
    FindSkips(line, '#', "");
    assert line + "#" + comment == line + ("#" + comment) && line + "" == line;
    assert (line + "#" + comment)[..|line|] == line;
    hide Words, ParseNumber;
  }

  /** Two numbers with a space between are an event exactly if both are in range, 32 bits for the
      frame and 16 for the keys. */
  lemma NumbersParse(a: string, b: string)
    requires a != "" && b != "" && AllDigits(a, 10) && AllDigits(b, 16)
    ensures ParseLine(a + " " + b)
         == if Fold(a, 10) < 0x1_0000_0000 && Fold(b, 16) < 0x1_0000 then [Event(Fold(a, 10), Fold(b, 16))] else []
  {
    assert AllDigits(a, 16);
    DigitsAreDigits(a);
    DigitsAreDigits(b);
    NumberParses(a, 10, MAX_FRAME);
    NumberParses(b, 16, MAX_KEYS);
    hide AllDigits, DigitValue, IsSpace, Words, ParseNumber, Fold, Find;
    WordsOfTwo(a, b);
    NoBreak(a, b);
  }

  predicate Fits(es: seq<Event>) { forall i :: 0 <= i < |es| ==> es[i].keys < MAX_KEYS }

  /** The events that can be read back: those whose frame number fits in 32 bits. */
  function Readable(es: seq<Event>): seq<Event> {
    if es == [] then [] else (if es[0].frame < MAX_FRAME then [es[0]] else []) + Readable(es[1..])
  }

  lemma {:induction false} PrintParses(es: seq<Event>)
    requires Fits(es)
    ensures ParseLines(SplitLines(Print(es))) == Readable(es)
  {
    if es != [] {
      var e := es[0];
      LineParses(e);
      assert PrintEvent(e) + Print(es[1..]) == Line(e) + "\n" + Print(es[1..]);
      SplitFirst(Line(e), Print(es[1..]));
      PrintParses(es[1..]);
      hide Line, ParseLine, SplitLines, PrintEvent;
      var lines := [Line(e)] + SplitLines(Print(es[1..]));
      assert lines[0] == Line(e) && lines[1..] == SplitLines(Print(es[1..]));
    }
  }

  /** A log is its own only sorted rearrangement when its frames increase. */
  lemma {:induction false} SortedUnique(es: seq<Event>, r: seq<Event>)
    requires Increasing(es) && Sorted(r) && multiset(r) == multiset(es)
    ensures r == es
    decreases |es|
  {
    SameLength(es, r);
    if es != [] {
      SameFirst(es, r);
      TailsAgree(es, r);
      hide *;
      SortedUnique(es[1..], r[1..]);
      assert es == [es[0]] + es[1..] && r == [r[0]] + r[1..];
    }
  }

  lemma SameLength(es: seq<Event>, r: seq<Event>)
    requires multiset(r) == multiset(es)
    ensures |r| == |es|
  {
    assert |r| == |multiset(r)| && |multiset(es)| == |es|;
  }

  lemma TailsAgree(es: seq<Event>, r: seq<Event>)
    requires Increasing(es) && Sorted(r) && multiset(r) == multiset(es) && |r| == |es| > 0 && r[0] == es[0]
    ensures multiset(r[1..]) == multiset(es[1..]) && Increasing(es[1..]) && Sorted(r[1..])
  {
    TailCounts(es);
    TailCounts(r);
  }

  lemma SameFirst(es: seq<Event>, r: seq<Event>)
    requires Increasing(es) && Sorted(r) && multiset(r) == multiset(es) && |r| == |es| > 0
    ensures r[0] == es[0]
  {
    assert es[0] in multiset(r) && r[0] in multiset(es);
  }

  lemma TailCounts(es: seq<Event>)
    requires es != []
    ensures multiset(es[1..]) == multiset(es) - multiset{es[0]}
  {
    assert es == [es[0]] + es[1..];
  }

  lemma {:induction false} ReadableAll(es: seq<Event>)
    requires forall i :: 0 <= i < |es| ==> es[i].frame < MAX_FRAME
    ensures Readable(es) == es
  {
    if es != [] { ReadableAll(es[1..]); }
  }

  lemma {:induction false} ReadableShorter(es: seq<Event>, i: nat)
    requires i < |es| && es[i].frame >= MAX_FRAME
    ensures |Readable(es)| < |es|
  {
    ReadableLength(es[1..]);
    if i > 0 { ReadableShorter(es[1..], i - 1); }
  }

  lemma {:induction false} ReadableLength(es: seq<Event>)
    ensures |Readable(es)| <= |es|
  {
    if es != [] { ReadableLength(es[1..]); }
  }

  /** Whatever order the sort leaves, reading a printed log gives the log back exactly when
      all its frame numbers fit in 32 bits. */
  lemma RoundTrip(es: seq<Event>, r: seq<Event>)
    requires Fits(es) && Increasing(es)
    requires Sorted(r) && multiset(r) == multiset(ParseLines(SplitLines(Print(es))))
    ensures r == es <==> forall i :: 0 <= i < |es| ==> es[i].frame < MAX_FRAME
  {
    PrintParses(es);
    if forall i :: 0 <= i < |es| ==> es[i].frame < MAX_FRAME {
      ReadableAll(es);
      SortedUnique(es, r);
    } else {
      var i :| 0 <= i < |es| && es[i].frame >= MAX_FRAME;
      ReadableShorter(es, i);
      assert |r| == |multiset(r)| == |multiset(Readable(es))| == |Readable(es)|;
    }
  }
}
