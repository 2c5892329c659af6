/** Object keys: the byte order of names, fixed-width numbers, and the segment and page names built from them. */
module KeyLayout {
  import opened CatalogTypes

  // ---- Key order ----

  /** The order in which an object store lists keys. */
  predicate Less(a: string, b: string) {
    b != [] && (a == [] || a[0] < b[0] || (a[0] == b[0] && Less(a[1..], b[1..])))
  }

  lemma {:induction false} LessTransitive(a: string, b: string, c: string)
    requires Less(a, b) && Less(b, c)
    ensures Less(a, c)
  {
    if a != [] && a[0] == b[0] && b[0] == c[0] { LessTransitive(a[1..], b[1..], c[1..]); }
  }

  lemma {:induction false} LessTotal(a: string, b: string)
    ensures !Less(a, a) && (Less(a, b) || a == b || Less(b, a)) && !(Less(a, b) && Less(b, a))
  {
    if a != [] { LessTotal(a[1..], if b == [] then a[1..] else b[1..]); }
    if a != [] && b != [] && a[1..] == b[1..] && a[0] == b[0] { assert a == [a[0]] + a[1..] && b == [b[0]] + b[1..]; }
  }

  lemma {:induction false} LessPrefix(p: string, a: string, b: string)
    ensures Less(p + a, p + b) <==> Less(a, b)
  {
    if p == [] {
      assert p + a == a && p + b == b;
    } else {
      assert (p + a)[1..] == p[1..] + a && (p + b)[1..] == p[1..] + b;
      LessPrefix(p[1..], a, b);
    }
  }

  /** Names that differ within a field of fixed width are ordered by that field, whatever follows it. */
  lemma {:induction false} LessField(a: string, b: string, x: string, y: string)
    requires |a| == |b| && Less(a, b)
    ensures Less(a + x, b + y)
  {
    assert (a + x)[1..] == a[1..] + x && (b + y)[1..] == b[1..] + y;
    if a[0] == b[0] { LessField(a[1..], b[1..], x, y); }
  }

  lemma LessExtends(a: string, x: string)
    requires x != []
    ensures Less(a, a + x)
  {
    LessPrefix(a, [], x);
    assert a + [] == a;
  }

  // ---- Fixed-width numbers ----

  function Pow(base: nat, w: nat): nat { if w == 0 then 1 else base * Pow(base, w - 1) }

  predicate Radix(base: nat) { base == 10 || base == 16 }

  function Digit(d: nat): char
    requires d < 16
  {
    if d < 10 then ('0' as int + d) as char else ('a' as int + (d - 10)) as char
  }

  predicate IsDigit(base: nat, ch: char) { '0' <= ch <= '9' || (base == 16 && 'a' <= ch <= 'f') }

  function DigitValue(ch: char): nat { if ch < 'a' then (if ch < '0' then 0 else ch as int - '0' as int) else ch as int - 'a' as int + 10 }

  lemma DigitRoundTrip(base: nat, d: nat, ch: char)
    requires Radix(base)
    ensures d < base ==> IsDigit(base, Digit(d)) && DigitValue(Digit(d)) == d
    ensures IsDigit(base, ch) ==> DigitValue(ch) < base && Digit(DigitValue(ch)) == ch
  {
  }

  /** A number written with exactly w digits, as the printf verbs %0wd and %0wx write it. */
  function Padded(base: nat, w: nat, n: nat): (s: string)
    requires Radix(base)
    ensures |s| == w && forall i :: 0 <= i < |s| ==> IsDigit(base, s[i])
  {
    if w == 0 then []
    else
      DigitRoundTrip(base, n % base, '0');
      Padded(base, w - 1, n / base) + [Digit(n % base)]
  }

  predicate Digits(base: nat, s: string) { forall i :: 0 <= i < |s| ==> IsDigit(base, s[i]) }

  function Value(base: nat, s: string): nat {
    if s == [] then 0 else Value(base, s[..|s|-1]) * base + DigitValue(s[|s|-1])
  }

  lemma {:induction false} PaddedValue(base: nat, w: nat, n: nat)
    requires Radix(base) && n < Pow(base, w)
    ensures Value(base, Padded(base, w, n)) == n
  {
    if w > 0 {
      var p := Pow(base, w - 1);
      assert n / base < p by { if base == 10 { assert n < 10 * p; } else { assert n < 16 * p; } }
      PaddedValue(base, w - 1, n / base);
      DigitRoundTrip(base, n % base, '0');
      var s := Padded(base, w, n);
      assert s[..|s|-1] == Padded(base, w - 1, n / base);
      if base == 10 { assert n / 10 * 10 + n % 10 == n; } else { assert n / 16 * 16 + n % 16 == n; }
    }
  }

  lemma {:induction false} ValuePadded(base: nat, s: string)
    requires Radix(base) && Digits(base, s)
    ensures Value(base, s) < Pow(base, |s|) && Padded(base, |s|, Value(base, s)) == s
  {
    if s != [] {
      var n := |s| - 1;
      ValuePadded(base, s[..n]);
      DigitRoundTrip(base, 0, s[n]);
      DigitAppended(base, Value(base, s[..n]), DigitValue(s[n]), Pow(base, n));
      assert s == s[..n] + [s[n]];
    }
  }

  lemma DigitAppended(base: nat, v: nat, d: nat, p: nat)
    requires Radix(base) && d < base && v < p
    ensures (v * base + d) / base == v && (v * base + d) % base == d && v * base + d < base * p
  {
  }

  /** Fixed-width numbers order as numbers. */
  lemma {:induction false} PaddedOrder(base: nat, w: nat, n: nat, m: nat)
    requires Radix(base) && n < m < Pow(base, w)
    ensures Less(Padded(base, w, n), Padded(base, w, m))
  {
    var n', m' := n / base, m / base;
    var p := Pow(base, w - 1);
    assert n' <= m' < p && (n' == m' ==> n % base < m % base) by {
      if base == 10 { assert m < 10 * p; } else { assert m < 16 * p; }
    }
    var a, b := Padded(base, w - 1, n'), Padded(base, w - 1, m');
    if n' < m' {
      PaddedOrder(base, w - 1, n', m');
      LessField(a, b, [Digit(n % base)], [Digit(m % base)]);
    } else {
      assert Less([Digit(n % base)], [Digit(m % base)]);
      LessPrefix(a, [Digit(n % base)], [Digit(m % base)]);
    }
  }

  // ---- Decimal fields of twenty digits ----

  function Field(n: nat): string { Padded(10, 20, n) }

  lemma FieldWide()
    ensures MAX_U64 < Pow(10, 20)
  {
    assert Pow(10, 4) == 1_0000;
    assert Pow(10, 8) == 1_0000_0000;
    assert Pow(10, 12) == 1_0000_0000_0000;
    assert Pow(10, 16) == 1_0000_0000_0000_0000;
    assert Pow(10, 20) == 1_0000_0000_0000_0000_0000;
  }

  /** Reads twenty decimal digits; the value must fit in 64 bits. */
  function ParseField(s: string): Option<nat> {
    if |s| != 20 || !Digits(10, s) || Value(10, s) > MAX_U64 then None else Some(Value(10, s))
  }

  lemma FieldRoundTrip(n: nat, s: string)
    ensures n <= MAX_U64 ==> ParseField(Field(n)) == Some(n)
    ensures ParseField(s).Some? ==> Field(ParseField(s).value) == s && ParseField(s).value <= MAX_U64
  {
    hide Padded, Value, Pow;
    FieldWide();
    if n <= MAX_U64 { PaddedValue(10, 20, n); }
    if Digits(10, s) { ValuePadded(10, s); }
  }

  lemma FieldOrder(n: nat, m: nat)
    requires n < m <= MAX_U64
    ensures Less(Field(n), Field(m))
  {
    FieldWide();
    PaddedOrder(10, 20, n, m);
  }

  // ---- Segment names ----

  const UUID_LIMIT: nat := Pow(16, 32)

  /** What a segment object's name says. A UUID is a non-zero 128-bit number, written as 32 lower-case hex digits. */
  datatype SegmentName = SegmentName(baseLSN: nat, writerEpoch: nat, uuid: nat)

  predicate ValidSegmentName(k: SegmentName) {
    k.baseLSN <= MAX_U64 && 0 < k.writerEpoch <= MAX_U64 && 0 < k.uuid < UUID_LIMIT
  }

  function FormatSegmentName(k: SegmentName, suffix: string): string {
    "seg-" + Field(k.baseLSN) + "-e" + Field(k.writerEpoch) + "-" + Padded(16, 32, k.uuid) + suffix
  }

  const STEM: nat := 79

  function ParseSegmentName(name: string, suffix: string): Option<SegmentName> {
    if |name| != STEM + |suffix| || name[STEM..] != suffix then None
    else
      var stem := name[..STEM];
      if stem[..4] != "seg-" || stem[24..26] != "-e" || stem[46] != '-' then None
      else
        var base, epoch := ParseField(stem[4..24]), ParseField(stem[26..46]);
        if base.None? || epoch.None? || epoch.value == 0 then None
        else if !Digits(16, stem[47..]) || Value(16, stem[47..]) == 0 then None
        else Some(SegmentName(base.value, epoch.value, Value(16, stem[47..])))
  }

  lemma SegmentNameParts(k: SegmentName, suffix: string)
    ensures var s := FormatSegmentName(k, suffix);
            && |s| == STEM + |suffix| && s[STEM..] == suffix && s[..STEM][..4] == "seg-" && s[..STEM][4..24] == Field(k.baseLSN)
            && s[..STEM][24..26] == "-e" && s[..STEM][26..46] == Field(k.writerEpoch) && s[..STEM][46] == '-'
            && s[..STEM][47..] == Padded(16, 32, k.uuid)
  {
    hide Padded;
    var b, e, u := Field(k.baseLSN), Field(k.writerEpoch), Padded(16, 32, k.uuid);
    var s := "seg-" + b + "-e" + e + "-" + u + suffix;
    assert |b| == 20 && |e| == 20 && |u| == 32;
    assert s[..STEM] == "seg-" + b + "-e" + e + "-" + u;
  }

  /** Parsing undoes formatting, and accepts nothing but formatted names. */
  lemma SegmentNameRoundTrip(k: SegmentName, name: string, suffix: string)
    ensures ValidSegmentName(k) ==> ParseSegmentName(FormatSegmentName(k, suffix), suffix) == Some(k)
    ensures ParseSegmentName(name, suffix).Some? ==>
              ValidSegmentName(ParseSegmentName(name, suffix).value) && FormatSegmentName(ParseSegmentName(name, suffix).value, suffix) == name
  {
    hide Padded, Value, Pow, ParseField;
    SegmentNameParts(k, suffix);
    FieldRoundTrip(k.baseLSN, []);
    FieldRoundTrip(k.writerEpoch, []);
    if k.uuid < UUID_LIMIT { PaddedValue(16, 32, k.uuid); }
    var s := FormatSegmentName(k, suffix);
    assert Digits(16, s[..STEM][47..]);
    if ParseSegmentName(name, suffix).Some? { CanonicalSegmentName(name, suffix); }
  }

  lemma CanonicalSegmentName(name: string, suffix: string)
    requires ParseSegmentName(name, suffix).Some?
    ensures var k := ParseSegmentName(name, suffix).value; ValidSegmentName(k) && FormatSegmentName(k, suffix) == name
  {
    hide Padded, Value, Pow, ParseField;
    var stem := name[..STEM];
    FieldRoundTrip(0, stem[4..24]);
    FieldRoundTrip(0, stem[26..46]);
    ValuePadded(16, stem[47..]);
    assert stem == stem[..4] + stem[4..24] + stem[24..26] + stem[26..46] + [stem[46]] + stem[47..];
    assert name == stem + name[STEM..];
  }

  /** Segment names sort by base LSN. */
  lemma SegmentNameOrder(a: SegmentName, b: SegmentName, suffix: string)
    requires ValidSegmentName(a) && ValidSegmentName(b) && Less(FormatSegmentName(a, suffix), FormatSegmentName(b, suffix))
    ensures a.baseLSN <= b.baseLSN
  {
    hide Padded, Less;
    if b.baseLSN < a.baseLSN {
      SegmentNameBelow(b, a, suffix);
      LessTotal(FormatSegmentName(a, suffix), FormatSegmentName(b, suffix));
    }
  }

  lemma SegmentNameBelow(a: SegmentName, b: SegmentName, suffix: string)
    requires a.baseLSN < b.baseLSN <= MAX_U64
    ensures Less(FormatSegmentName(a, suffix), FormatSegmentName(b, suffix))
  {
    hide Padded, Less;
    FieldOrder(a.baseLSN, b.baseLSN);
    var x := "-e" + Field(a.writerEpoch) + "-" + Padded(16, 32, a.uuid) + suffix;
    var y := "-e" + Field(b.writerEpoch) + "-" + Padded(16, 32, b.uuid) + suffix;
    LessField(Field(a.baseLSN), Field(b.baseLSN), x, y);
    LessPrefix("seg-", Field(a.baseLSN) + x, Field(b.baseLSN) + y);
    assert FormatSegmentName(a, suffix) == "seg-" + (Field(a.baseLSN) + x);
    assert FormatSegmentName(b, suffix) == "seg-" + (Field(b.baseLSN) + y);
  }

  /** The synthetic key a sweep starts from: before every name with this base LSN or a later one. */
  function SegmentLowerBound(baseLSN: nat): string { "seg-" + Field(baseLSN) + "-" }

  lemma LowerBoundBelow(baseLSN: nat, k: SegmentName, suffix: string)
    requires baseLSN <= k.baseLSN <= MAX_U64
    ensures Less(SegmentLowerBound(baseLSN), FormatSegmentName(k, suffix))
  {
    hide Padded, Less;
    var rest := "e" + Field(k.writerEpoch) + "-" + Padded(16, 32, k.uuid) + suffix;
    assert FormatSegmentName(k, suffix) == "seg-" + (Field(k.baseLSN) + ("-" + rest));
    assert SegmentLowerBound(baseLSN) == "seg-" + (Field(baseLSN) + "-");
    LessPrefix("seg-", Field(baseLSN) + "-", Field(k.baseLSN) + ("-" + rest));
    if baseLSN < k.baseLSN {
      FieldOrder(baseLSN, k.baseLSN);
      LessField(Field(baseLSN), Field(k.baseLSN), "-", "-" + rest);
    } else {
      LessExtends(Field(baseLSN) + "-", rest);
      assert Field(baseLSN) + "-" + rest == Field(k.baseLSN) + ("-" + rest);
    }
  }

  // ---- Page names ----

  /** What a page object's path says, relative to the partition's page directory. The page identifier is 128 bits,
      written as 32 lower-case hex digits. */
  datatype PageName = PageName(level: nat, seqHi: nat, seqLo: nat, generation: nat, id: nat)

  predicate ValidPageName(k: PageName) {
    k.level <= MAX_INDEX_LEVEL && k.seqLo <= k.seqHi <= MAX_U64 && 0 < k.generation <= MAX_U64 && k.id < UUID_LIMIT
  }

  function NamePrefix(level: nat): string { if level == 0 then "leaf-" else "index-l" + Padded(10, 2, level) + "-" }

  function PageFields(k: PageName): string {
    Field(k.seqHi) + "-" + Field(k.seqLo) + "-" + Field(k.generation) + "-" + Padded(16, 32, k.id)
  }

  function FormatPagePath(k: PageName): string {
    "l" + Padded(10, 2, k.level) + "/" + NamePrefix(k.level) + PageFields(k) + ".plc"
  }

  /** Position of the first occurrence of a character, or the length. */
  function IndexOf(s: string, ch: char): (n: nat)
    ensures n <= |s| && (forall i :: 0 <= i < n ==> s[i] != ch) && (n < |s| ==> s[n] == ch)
  {
    if s == [] || s[0] == ch then 0 else 1 + IndexOf(s[1..], ch)
  }

  function Split(s: string, ch: char): (parts: seq<string>)
    ensures parts != []
  {
    var n := IndexOf(s, ch);
    if n == |s| then [s] else [s[..n]] + Split(s[n+1..], ch)
  }

  function Join(parts: seq<string>, ch: char): string
    requires parts != []
  {
    if |parts| == 1 then parts[0] else parts[0] + [ch] + Join(parts[1..], ch)
  }

  lemma {:induction false} JoinSplit(s: string, ch: char)
    ensures Join(Split(s, ch), ch) == s
  {
    hide Split, Join, IndexOf;
    var n := IndexOf(s, ch);
    SplitStep(s, ch);
    if n < |s| {
      var a, rest := s[..n], s[n+1..];
      JoinSplit(rest, ch);
      JoinStep(a, Split(rest, ch), ch);
      assert s[n] == ch && s == a + [s[n]] + rest;
    } else {
      JoinOne(s, ch);
    }
  }

  lemma {:induction false} SplitStep(s: string, ch: char)
    ensures var n := IndexOf(s, ch); Split(s, ch) == if n == |s| then [s] else [s[..n]] + Split(s[n+1..], ch)
  {
    hide Join;
  }

  lemma {:induction false} JoinStep(a: string, rest: seq<string>, ch: char)
    requires rest != []
    ensures Join([a] + rest, ch) == a + [ch] + Join(rest, ch)
  {
    assert ([a] + rest)[1..] == rest;
  }

  lemma JoinOne(a: string, ch: char)
    ensures Join([a], ch) == a
  {
  }

  lemma {:induction false} SplitOne(a: string, ch: char)
    requires forall i :: 0 <= i < |a| ==> a[i] != ch
    ensures Split(a, ch) == [a]
  {
  }

  lemma {:induction false} SplitFirst(a: string, rest: string, ch: char)
    requires forall i :: 0 <= i < |a| ==> a[i] != ch
    ensures Split(a + [ch] + rest, ch) == [a] + Split(rest, ch)
  {
    var s := a + [ch] + rest;
    assert s[|a|] == ch;
    assert IndexOf(s, ch) == |a|;
    assert s[..|a|] == a && s[|a|+1..] == rest;
  }

  function ParsePagePath(path: string): Option<PageName> {
    var slash := IndexOf(path, '/');
    if slash != 3 || slash == |path| || path[0] != 'l' || !Digits(10, path[1..3]) then None
    else
      var level, name := Value(10, path[1..3]), path[4..];
      if level > MAX_INDEX_LEVEL || '/' in name then None
      else
        var np := NamePrefix(level);
        if !(np <= name) || |name| < 4 || name[|name|-4..] != ".plc" || |name| < |np| + 4 then None
        else ParsePageFields(level, Split(name[|np|..|name|-4], '-'))
  }

  function ParsePageFields(level: nat, fields: seq<string>): Option<PageName> {
    if |fields| != 4 || |fields[0]| != 20 || |fields[1]| != 20 || |fields[2]| != 20 || |fields[3]| != 32 then None
    else
      var hi, lo, generation := ParseField(fields[0]), ParseField(fields[1]), ParseField(fields[2]);
      if hi.None? || lo.None? || hi.value < lo.value || generation.None? || generation.value == 0 || !Digits(16, fields[3]) then None
      else Some(PageName(level, hi.value, lo.value, generation.value, Value(16, fields[3])))
  }

  lemma NoDash(base: nat, w: nat, n: nat)
    requires Radix(base)
    ensures forall i :: 0 <= i < w ==> Padded(base, w, n)[i] != '-' && Padded(base, w, n)[i] != '/'
  {
  }

  lemma SplitFields(k: PageName)
    ensures Split(PageFields(k), '-') == [Field(k.seqHi), Field(k.seqLo), Field(k.generation), Padded(16, 32, k.id)]
  {
    hide Padded, Split;
    var a, b, g, d := Field(k.seqHi), Field(k.seqLo), Field(k.generation), Padded(16, 32, k.id);
    NoDash(10, 20, k.seqHi); NoDash(10, 20, k.seqLo); NoDash(10, 20, k.generation); NoDash(16, 32, k.id);
    SplitOne(d, '-');
    SplitFirst(g, d, '-');
    SplitFirst(b, g + "-" + d, '-');
    SplitFirst(a, b + "-" + (g + "-" + d), '-');
    assert PageFields(k) == a + "-" + (b + "-" + (g + "-" + d));
  }

  lemma FieldsRoundTrip(k: PageName)
    requires ValidPageName(k)
    ensures ParsePageFields(k.level, [Field(k.seqHi), Field(k.seqLo), Field(k.generation), Padded(16, 32, k.id)]) == Some(k)
  {
    hide Padded, Value, Pow, ParseField;
    FieldRoundTrip(k.seqHi, []);
    FieldRoundTrip(k.seqLo, []);
    FieldRoundTrip(k.generation, []);
    PaddedValue(16, 32, k.id);
    assert Digits(16, Padded(16, 32, k.id));
  }

  lemma LevelRoundTrip(level: nat, s: string)
    ensures level <= MAX_INDEX_LEVEL ==> Digits(10, Padded(10, 2, level)) && Value(10, Padded(10, 2, level)) == level
    ensures |s| == 2 && Digits(10, s) ==> Padded(10, 2, Value(10, s)) == s
  {
    if level <= MAX_INDEX_LEVEL { assert Pow(10, 2) == 100; PaddedValue(10, 2, level); }
    if |s| == 2 && Digits(10, s) { ValuePadded(10, s); }
  }

  lemma {:induction false} NoSlash(k: PageName)
    ensures '/' !in NamePrefix(k.level) + PageFields(k) + ".plc"
  {
    hide Padded;
    NoDash(10, 2, k.level);
    NoDash(10, 20, k.seqHi); NoDash(10, 20, k.seqLo); NoDash(10, 20, k.generation); NoDash(16, 32, k.id);
    assert '/' !in NamePrefix(k.level) && '/' !in PageFields(k);
  }

  lemma {:induction false} PagePathParts(k: PageName)
    ensures var p := FormatPagePath(k); var name := NamePrefix(k.level) + PageFields(k) + ".plc";
            && |p| == 4 + |name| && p[0] == 'l' && p[1..3] == Padded(10, 2, k.level) && p[3] == '/' && p[4..] == name
            && IndexOf(p, '/') == 3 && '/' !in name
  {
    hide Padded, NamePrefix, PageFields, IndexOf;
    NoDash(10, 2, k.level);
    NoSlash(k);
    var name := NamePrefix(k.level) + PageFields(k) + ".plc";
    var d := Padded(10, 2, k.level);
    var p := FormatPagePath(k);
    assert p == "l" + d + "/" + name;
    assert p[0] == 'l' && p[1] == d[0] && p[2] == d[1] && p[3] == '/';
  }

  lemma NameParts(level: nat, fields: string)
    ensures var np := NamePrefix(level); var name := np + fields + ".plc";
            && np <= name && |name| == |np| + |fields| + 4 && name[|name|-4..] == ".plc" && name[|np|..|name|-4] == fields
  {
    hide Padded;
  }

  /** Parsing undoes formatting, and accepts nothing but formatted paths. */
  lemma PagePathRoundTrip(k: PageName)
    requires ValidPageName(k)
    ensures ParsePagePath(FormatPagePath(k)) == Some(k)
  {
    hide Padded, Value, Pow, ParsePageFields, Split, FormatPagePath, PageFields, NamePrefix;
    PagePathParts(k);
    NameParts(k.level, PageFields(k));
    LevelRoundTrip(k.level, []);
    SplitFields(k);
    FieldsRoundTrip(k);
  }

  lemma CanonicalPagePath(path: string)
    requires ParsePagePath(path).Some?
    ensures var k := ParsePagePath(path).value; ValidPageName(k) && FormatPagePath(k) == path
  {
    hide Padded, Value, Pow, ParsePageFields, Split, PageFields, NamePrefix, ParseField;
    var level, name := Value(10, path[1..3]), path[4..];
    LevelRoundTrip(0, path[1..3]);
    var np := NamePrefix(level);
    var body := name[|np|..|name|-4];
    CanonicalFields(level, body);
    assert name == np + body + ".plc" by { assert name == name[..|np|] + body + name[|name|-4..]; }
    assert path == [path[0]] + path[1..3] + [path[3]] + path[4..];
  }

  lemma CanonicalFields(level: nat, body: string)
    requires level <= MAX_INDEX_LEVEL && ParsePageFields(level, Split(body, '-')).Some?
    ensures var k := ParsePageFields(level, Split(body, '-')).value; ValidPageName(k) && k.level == level && PageFields(k) == body
  {
    hide Padded, Value, Pow, ParseField, Split;
    var f := Split(body, '-');
    JoinSplit(body, '-');
    JoinFour(f, '-');
    FieldRoundTrip(0, f[0]);
    FieldRoundTrip(0, f[1]);
    FieldRoundTrip(0, f[2]);
    ValuePadded(16, f[3]);
  }

  lemma {:induction false} JoinFour(f: seq<string>, ch: char)
    requires |f| == 4
    ensures Join(f, ch) == f[0] + [ch] + f[1] + [ch] + f[2] + [ch] + f[3]
  {
    assert f[1..][1..] == f[2..] && f[2..][1..] == f[3..];
    assert Join(f[3..], ch) == f[3];
    assert Join(f[2..], ch) == f[2] + [ch] + f[3];
    assert Join(f[1..], ch) == f[1] + [ch] + (f[2] + [ch] + f[3]);
  }

  /** The synthetic key before every page of a level that ends at seqHi or later. */
  function PageEndLowerBound(level: nat, seqHi: nat): string {
    "l" + Padded(10, 2, level) + "/" + NamePrefix(level) + Field(seqHi) + "-"
  }

  lemma PageLowerBoundBelow(seqHi: nat, k: PageName)
    requires seqHi <= k.seqHi <= MAX_U64
    ensures Less(PageEndLowerBound(k.level, seqHi), FormatPagePath(k))
  {
    hide Padded, Less, NamePrefix;
    var p := "l" + Padded(10, 2, k.level) + "/" + NamePrefix(k.level);
    var rest := Field(k.seqLo) + "-" + Field(k.generation) + "-" + Padded(16, 32, k.id) + ".plc";
    assert PageEndLowerBound(k.level, seqHi) == p + (Field(seqHi) + "-");
    assert FormatPagePath(k) == p + (Field(k.seqHi) + ("-" + rest));
    LessPrefix(p, Field(seqHi) + "-", Field(k.seqHi) + ("-" + rest));
    if seqHi < k.seqHi {
      FieldOrder(seqHi, k.seqHi);
      LessField(Field(seqHi), Field(k.seqHi), "-", "-" + rest);
    } else {
      LessExtends(Field(seqHi) + "-", rest);
      assert Field(seqHi) + "-" + rest == Field(k.seqHi) + ("-" + rest);
    }
  }

  /** Within a level, page paths sort by the LSN the page ends at. */
  lemma PagePathOrder(a: PageName, b: PageName)
    requires ValidPageName(a) && ValidPageName(b) && a.level == b.level && Less(FormatPagePath(a), FormatPagePath(b))
    ensures a.seqHi <= b.seqHi
  {
    hide Padded, Less, NamePrefix;
    if b.seqHi < a.seqHi {
      var p := "l" + Padded(10, 2, a.level) + "/" + NamePrefix(a.level);
      var x := "-" + Field(a.seqLo) + "-" + Field(a.generation) + "-" + Padded(16, 32, a.id) + ".plc";
      var y := "-" + Field(b.seqLo) + "-" + Field(b.generation) + "-" + Padded(16, 32, b.id) + ".plc";
      assert FormatPagePath(a) == p + (Field(a.seqHi) + x) && FormatPagePath(b) == p + (Field(b.seqHi) + y);
      FieldOrder(b.seqHi, a.seqHi);
      LessField(Field(b.seqHi), Field(a.seqHi), y, x);
      LessPrefix(p, Field(b.seqHi) + y, Field(a.seqHi) + x);
      LessTotal(FormatPagePath(a), FormatPagePath(b));
    }
  }
}
