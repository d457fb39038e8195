/**
 * The text that stands for an attachment in a message: storage name, key, an optional
 * metadata segment and the display name.
 */
module AttachmentToken {
  import opened Common

  const MAX_SEGMENT := 256
  const MAX_SIZE := 1099511627776
  const MAX_DURATION := 21600000

  /* Cutting text. */

  function IndexOf(s: string, c: char): (i: nat)
    ensures i <= |s| && (i < |s| ==> s[i] == c) && forall j :: 0 <= j < i ==> s[j] != c
  {
    if s == "" then 0 else if s[0] == c then 0 else 1 + IndexOf(s[1..], c)
  }

  lemma {:induction false} FirstIndex(a: string, c: char, b: string)
    requires c !in a
    ensures IndexOf(a + [c] + b, c) == |a|
    ensures (a + [c] + b)[..|a|] == a && (a + [c] + b)[|a| + 1..] == b
  {
    if a != "" {
      FirstIndex(a[1..], c, b);
      assert (a + [c] + b)[1..] == a[1..] + [c] + b;
    }
  }

  function Split(s: string, c: char): (parts: seq<string>)
    ensures parts != []
    decreases |s|
  {
    var i := IndexOf(s, c);
    if i == |s| then [s] else [s[..i]] + Split(s[i + 1..], c)
  }

  function Joined(parts: seq<string>): string
    requires parts != []
  {
    if |parts| == 1 then parts[0] else parts[0] + [';'] + Joined(parts[1..])
  }

  lemma {:induction false} SplitUndoesJoin(parts: seq<string>)
    requires parts != [] && forall i :: 0 <= i < |parts| ==> ';' !in parts[i]
    ensures Split(Joined(parts), ';') == parts
  {
    if |parts| == 1 {
      var i := IndexOf(parts[0], ';');
      assert i == |parts[0]|;
    } else {
      SplitUndoesJoin(parts[1..]);
      FirstIndex(parts[0], ';', Joined(parts[1..]));
    }
  }

  lemma {:induction false} JoinedExtends(parts: seq<string>, f: string)
    requires parts != []
    ensures Joined(parts + [f]) == Joined(parts) + [';'] + f
  {
    if |parts| == 1 {
      assert (parts + [f])[1..] == [f];
    } else {
      JoinedExtends(parts[1..], f);
      assert (parts + [f])[1..] == parts[1..] + [f];
    }
  }

  lemma JoinedLength(parts: seq<string>, more: seq<string>, bound: nat)
    requires parts != [] && |more| <= 1 && (more != [] ==> |more[0]| <= bound)
    ensures |Joined(parts + more)| <= |Joined(parts)| + 1 + bound
  {
    if more == [] {
      assert parts + more == parts;
    } else {
      JoinedExtends(parts, more[0]);
      assert more == [more[0]];
    }
  }

  /* Decimal numbers. */

  predicate IsDigit(c: char) { '0' <= c <= '9' }

  function Digit(d: nat): (c: char)
    requires d < 10
    ensures IsDigit(c) && c as int - '0' as int == d
  {
    d as char + '0'
  }

  function Decimal(n: nat): (s: string)
    ensures s != ""
  {
    if n < 10 then [Digit(n)] else Decimal(n / 10) + [Digit(n % 10)]
  }

  predicate AllDigits(s: string) { forall i :: 0 <= i < |s| ==> IsDigit(s[i]) }

  function Value(s: string): nat
    requires AllDigits(s)
  {
    if s == "" then 0 else Value(s[..|s| - 1]) * 10 + (s[|s| - 1] as int - '0' as int)
  }

  lemma {:induction false} DecimalReadsBack(n: nat)
    ensures AllDigits(Decimal(n)) && Value(Decimal(n)) == n
  {
    if n < 10 {
      assert [Digit(n)][..0] == "";
    } else {
      DecimalReadsBack(n / 10);
      var s := Decimal(n);
      assert s[..|s| - 1] == Decimal(n / 10);
    }
  }

  lemma {:induction false} DecimalLength(n: nat, k: nat)
    requires 0 < k && n < Power(k)
    ensures |Decimal(n)| <= k
  {
    if n >= 10 {
      assert Power(1) == 10;
      DecimalLength(n / 10, k - 1);
    }
  }

  function Power(k: nat): nat { if k == 0 then 1 else 10 * Power(k - 1) }

  /** A number field: only a positive decimal number within the bound is taken. */
  function Number(s: string, max: nat): Option<nat> {
    if s != "" && AllDigits(s) && 0 < Value(s) <= max then Some(Value(s)) else None
  }

  /* The metadata segment. */

  datatype Meta = Meta(size: int, duration: int, peaks: string)

  const NOTHING := Meta(0, 0, "")

  predicate IsPeakChar(c: char) { IsDigit(c) || 'a' <= c <= 'z' || 'A' <= c <= 'Z' || c == '_' || c == '-' }

  predicate IsPeaks(s: string) { 1 <= |s| <= 64 && forall i :: 0 <= i < |s| ==> IsPeakChar(s[i]) }

  predicate IsValue(s: string) { s != "" && forall i :: 0 <= i < |s| ==> IsPeakChar(s[i]) || s[i] == '.' }

  predicate IsKey(s: string) { 1 <= |s| <= 8 && forall i :: 0 <= i < |s| ==> 'a' <= s[i] <= 'z' }

  predicate IsField(f: string) {
    var i := IndexOf(f, '=');
    i < |f| && IsKey(f[..i]) && IsValue(f[i + 1..])
  }

  predicate IsSegment(s: string) {
    var parts := Split(s, ';');
    parts[0] == "nx1" && forall i :: 1 <= i < |parts| ==> IsField(parts[i])
  }

  predicate SizeOk(m: Meta) { 0 < m.size <= MAX_SIZE }
  predicate DurationOk(m: Meta) { 0 < m.duration <= MAX_DURATION }

  /** Out-of-range fields dropped. */
  function Clean(m: Meta): Meta {
    Meta(if SizeOk(m) then m.size else 0, if DurationOk(m) then m.duration else 0, if IsPeaks(m.peaks) then m.peaks
        else "")
  }

  function SizePart(m: Meta): seq<string> { if SizeOk(m) then ["s=" + Decimal(m.size)] else [] }
  function DurationPart(m: Meta): seq<string> { if DurationOk(m) then ["d=" + Decimal(m.duration)] else [] }
  function PeaksPart(m: Meta): seq<string> { if IsPeaks(m.peaks) then ["w=" + m.peaks] else [] }

  function Parts(m: Meta): seq<string> { SizePart(m) + DurationPart(m) + PeaksPart(m) }

  function Encode(m: Meta): string { if Parts(m) == [] then "" else Joined(["nx1"] + Parts(m)) }

  lemma FieldAppended(b: string, done: seq<string>, f: string)
    requires done != [] && "nx1" + b == Joined(done)
    ensures "nx1" + (b + [';'] + f) == Joined(done + [f])
  {
    JoinedExtends(done, f);
    assert "nx1" + (b + [';'] + f) == ("nx1" + b) + [';'] + f;
  }

  /** Appends the field if it is to be carried. */
  method Carry(b: string, f: string, carried: bool, ghost done: seq<string>) returns (r: string)
    requires done != [] && "nx1" + b == Joined(done)
    ensures "nx1" + r == Joined(done + if carried then [f] else [])
  {
    if !carried {
      assert done + [] == done;
      return b;
    }
    FieldAppended(b, done, f);
    return b + [';'] + f;
  }

  method EncodeMeta(m: Meta) returns (s: string)
    ensures s == Encode(m)
  {
    ghost var head := ["nx1"];
    assert "nx1" + "" == Joined(head);
    var b := Carry("", if SizeOk(m) then "s=" + Decimal(m.size) else "", SizeOk(m), head);
    b := Carry(b, if DurationOk(m) then "d=" + Decimal(m.duration) else "", DurationOk(m), head + SizePart(m));
    b := Carry(b, "w=" + m.peaks, IsPeaks(m.peaks), head + SizePart(m) + DurationPart(m));
    assert head + SizePart(m) + DurationPart(m) + PeaksPart(m) == head + Parts(m);
    if Parts(m) == [] { assert head + [] == head; } else { JoinedLonger(Parts(m)); }
    s := if b == "" then "" else "nx1" + b;
  }

  lemma JoinedLonger(fs: seq<string>)
    requires fs != []
    ensures |Joined(["nx1"] + fs)| > 3
  {
    assert (["nx1"] + fs)[1..] == fs;
  }

  /** One field read into the metadata; an unknown key or a value out of range changes nothing. */
  function Read(m: Meta, f: string): Meta {
    var i := IndexOf(f, '=');
    var key, value := f[..i], if i < |f| then f[i + 1..] else "";
    if key == "s" then (if Number(value, MAX_SIZE).Some? then m.(size := Number(value, MAX_SIZE).value) else m)
    else if key == "d" then (if Number(value, MAX_DURATION).Some? then
        m.(duration := Number(value, MAX_DURATION).value) else m)
    else if key == "w" then (if IsPeaks(value) then m.(peaks := value) else m)
    else m
  }

  function ReadAll(fs: seq<string>): Meta {
    if fs == [] then NOTHING else Read(ReadAll(fs[..|fs| - 1]), fs[|fs| - 1])
  }

  function Parse(segment: string): Option<Meta> {
    if |segment| > MAX_SEGMENT || !IsSegment(segment) then None else Some(ReadAll(Split(segment, ';')[1..]))
  }

  method ParseMeta(segment: string) returns (r: Option<Meta>)
    ensures r == Parse(segment)
  {
    if |segment| > MAX_SEGMENT || !IsSegment(segment) { return None; }
    var fields := Split(segment, ';')[1..];
    var m := NOTHING;
    for i := 0 to |fields|
      invariant m == ReadAll(fields[..i])
    {
      assert fields[..i + 1][..i] == fields[..i];
      m := Read(m, fields[i]);
    }
    assert fields[..|fields|] == fields;
    return Some(m);
  }

  /* A printed segment reads back. */

  lemma ValueField(key: string, value: string)
    requires IsKey(key) && IsValue(value)
    ensures var f := key + ['='] + value;
            && IsField(f) && IndexOf(f, '=') == |key| && f[..|key|] == key && f[|key| + 1..] == value && ';' !in f
  {
    FirstIndex(key, '=', value);
  }

  lemma NumberField(n: nat, max: nat)
    requires 0 < n <= max && n < Power(13)
    ensures IsValue(Decimal(n)) && Number(Decimal(n), max) == Some(n) && |Decimal(n)| <= 13
  {
    DecimalReadsBack(n);
    DecimalLength(n, 13);
    assert forall i :: 0 <= i < |Decimal(n)| ==> IsDigit(Decimal(n)[i]);
  }

  lemma Thirteen()
    ensures MAX_SIZE < Power(13) && MAX_DURATION < Power(13)
  {
    assert Power(4) == 10000;
    assert Power(8) == 100000000;
    assert Power(12) == 1000000000000;
  }

  predicate GoodPart(f: string) { IsField(f) && ';' !in f }

  lemma SizeReads(m: Meta, r: Meta)
    requires SizeOk(m)
    ensures var f := "s=" + Decimal(m.size); GoodPart(f) && |f| <= 15 && Read(r, f) == r.(size := m.size)
  {
    Thirteen();
    NumberField(m.size, MAX_SIZE);
    ValueField("s", Decimal(m.size));
    assert "s" + ['='] + Decimal(m.size) == "s=" + Decimal(m.size);
  }

  lemma DurationReads(m: Meta, r: Meta)
    requires DurationOk(m)
    ensures var f := "d=" + Decimal(m.duration); GoodPart(f) && |f| <= 15 && Read(r, f) == r.(duration := m.duration)
  {
    Thirteen();
    NumberField(m.duration, MAX_DURATION);
    ValueField("d", Decimal(m.duration));
    assert "d" + ['='] + Decimal(m.duration) == "d=" + Decimal(m.duration);
  }

  lemma PeaksRead(m: Meta, r: Meta)
    requires IsPeaks(m.peaks)
    ensures var f := "w=" + m.peaks; GoodPart(f) && Read(r, f) == r.(peaks := m.peaks)
  {
    ValueField("w", m.peaks);
    assert "w" + ['='] + m.peaks == "w=" + m.peaks;
  }

  lemma ReadOneMore(fs: seq<string>, f: string)
    ensures ReadAll(fs + [f]) == Read(ReadAll(fs), f) && ReadAll(fs + []) == ReadAll(fs)
  {
    assert (fs + [f])[..|fs|] == fs && fs + [] == fs;
  }

  lemma PartsReadBack(m: Meta)
    ensures ReadAll(Parts(m)) == Clean(m)
  {
    var a, b := SizePart(m), SizePart(m) + DurationPart(m);
    assert [] + a == a;
    if SizeOk(m) {
      SizeReads(m, NOTHING);
      ReadOneMore([], "s=" + Decimal(m.size));
    }
    assert ReadAll(a) == NOTHING.(size := Clean(m).size);
    if DurationOk(m) {
      DurationReads(m, ReadAll(a));
      ReadOneMore(a, "d=" + Decimal(m.duration));
    } else {
      ReadOneMore(a, "");
    }
    assert ReadAll(b) == Clean(m).(peaks := "");
    if IsPeaks(m.peaks) { PeaksRead(m, ReadAll(b)); ReadOneMore(b, "w=" + m.peaks); } else { ReadOneMore(b, ""); }
  }

  lemma PartsGood(m: Meta, i: nat)
    requires i < |Parts(m)|
    ensures GoodPart(Parts(m)[i])
  {
    if SizeOk(m) { SizeReads(m, NOTHING); }
    if DurationOk(m) { DurationReads(m, NOTHING); }
    if IsPeaks(m.peaks) { PeaksRead(m, NOTHING); }
  }

  lemma SegmentShort(m: Meta)
    ensures |Joined(["nx1"] + Parts(m))| <= 102
  {
    var head := ["nx1"];
    if SizeOk(m) { SizeReads(m, NOTHING); }
    if DurationOk(m) { DurationReads(m, NOTHING); }
    JoinedLength(head, SizePart(m), 15);
    JoinedLength(head + SizePart(m), DurationPart(m), 15);
    JoinedLength(head + SizePart(m) + DurationPart(m), PeaksPart(m), 66);
    assert head + SizePart(m) + DurationPart(m) + PeaksPart(m) == head + Parts(m);
  }

  lemma SegmentSplits(m: Meta)
    ensures Split(Joined(["nx1"] + Parts(m)), ';') == ["nx1"] + Parts(m)
    ensures IsSegment(Joined(["nx1"] + Parts(m)))
  {
    var parts := ["nx1"] + Parts(m);
    forall i | 0 <= i < |parts| ensures ';' !in parts[i] && (i > 0 ==> IsField(parts[i])) {
      if i > 0 { PartsGood(m, i - 1); }
    }
    SplitUndoesJoin(parts);
  }

  /** What is printed is a well-formed segment that reads back as the in-range fields. */
  lemma SegmentReadsBack(m: Meta)
    requires Encode(m) != ""
    ensures Parse(Encode(m)) == Some(Clean(m))
  {
    SegmentShort(m);
    SegmentSplits(m);
    PartsReadBack(m);
    assert (["nx1"] + Parts(m))[1..] == Parts(m);
  }

  lemma NothingToCarry(m: Meta)
    ensures Encode(m) == "" <==> Clean(m) == NOTHING
  {
    if Parts(m) != [] { JoinedLonger(Parts(m)); }
  }

  /** Segments hold neither of the token's own characters. */
  lemma {:induction false} JoinedLacks(parts: seq<string>, c: char)
    requires parts != [] && c != ';' && forall i :: 0 <= i < |parts| ==> c !in parts[i]
    ensures c !in Joined(parts)
  {
    if |parts| > 1 { JoinedLacks(parts[1..], c); }
  }

  lemma FieldLacks(f: string, c: char)
    requires IsField(f) && (c == '#' || c == ']')
    ensures c !in f
  {
    var i := IndexOf(f, '=');
    forall j | 0 <= j < |f| ensures f[j] != c {
      if j < i { assert f[j] == f[..i][j]; } else if j > i { assert f[j] == f[i + 1..][j - i - 1]; }
    }
  }

  lemma SegmentLacks(m: Meta, c: char)
    requires c == '#' || c == ']'
    ensures c !in Encode(m)
  {
    var parts := ["nx1"] + Parts(m);
    forall i | 0 <= i < |parts| ensures c !in parts[i] {
      if i > 0 {
        PartsGood(m, i - 1);
        FieldLacks(parts[i], c);
      }
    }
    JoinedLacks(parts, c);
  }

  /* The token. */

  function SafeChar(c: char): char { if c == ']' || c == '#' then '_' else c }

  function SafeName(name: string): (r: string)
    ensures |r| == |name| && '#' !in r && ']' !in r
    ensures forall i :: 0 <= i < |r| ==> r[i] == if name[i] == ']' || name[i] == '#' then '_' else name[i]
  {
    seq(|name|, i requires 0 <= i < |name| => SafeChar(name[i]))
  }

  /** The token's inside. */
  function Capture(storage: string, key: string, m: Meta, name: string): string {
    storage + ['#'] + (key + ['#'] + if Encode(m) == "" then SafeName(name) else Encode(m) + ['#'] + SafeName(name))
  }

  function Token(storage: string, key: string, m: Meta, name: string): string {
    "[file:" + Capture(storage, key, m, name) + "]"
  }

  /** The three-field split that older clients use; anything else is a plain reference. */
  function SplitThree(capture: string): (string, string, string) {
    var i := IndexOf(capture, '#');
    if i == |capture| then (capture, "", capture)
    else
      var rest := capture[i + 1..];
      var j := IndexOf(rest, '#');
      if j == |rest| then (capture, "", capture) else (capture[..i], rest[..j], rest[j + 1..])
  }

  datatype Ref = Ref(storage: string, key: string, name: string, meta: Meta)

  function SplitRef(capture: string): Ref {
    var (storage, key, name) := SplitThree(capture);
    if key == "" then Ref(storage, key, name, NOTHING)
    else
      var i := IndexOf(name, '#');
      if i < |name| && Parse(name[..i]).Some? then Ref(storage, key, name[i + 1..], Parse(name[..i]).value)
      else Ref(storage, key, name, NOTHING)
  }

  /** Older clients get the storage name and the key of every token. */
  lemma OldSplitAgrees(storage: string, key: string, m: Meta, name: string)
    requires '#' !in storage && '#' !in key
    ensures SplitThree(Capture(storage, key, m, name))
            == (storage, key, if Encode(m) == "" then SafeName(name) else Encode(m) + ['#'] + SafeName(name))
  {
    var last := if Encode(m) == "" then SafeName(name) else Encode(m) + ['#'] + SafeName(name);
    FirstIndex(storage, '#', key + ['#'] + last);
    FirstIndex(key, '#', last);
  }

  /** A printed token reads back, exactly unless it has metadata and no key. */
  lemma TokenReadsBackIff(storage: string, key: string, m: Meta, name: string)
    requires '#' !in storage && '#' !in key
    ensures SplitRef(Capture(storage, key, m, name)) == Ref(storage, key, SafeName(name), Clean(m))
            <==> key != "" || Clean(m) == NOTHING
  {
    OldSplitAgrees(storage, key, m, name);
    NothingToCarry(m);
    var safe := SafeName(name);
    if Encode(m) == "" {
      var i := IndexOf(safe, '#');
      assert i == |safe|;
    } else {
      SegmentLacks(m, '#');
      FirstIndex(Encode(m), '#', safe);
      SegmentReadsBack(m);
    }
  }

  /** The token's only ']' is its last character, exactly if storage and key have none. */
  lemma OnlyLastBracket(storage: string, key: string, m: Meta, name: string)
    ensures ']' !in Capture(storage, key, m, name) <==> ']' !in storage && ']' !in key
    ensures var t := Token(storage, key, m, name); t[6..|t| - 1] == Capture(storage, key, m, name)
  {
    SegmentLacks(m, ']');
    var c := Capture(storage, key, m, name);
    if ']' in storage {
      var i :| 0 <= i < |storage| && storage[i] == ']';
      assert c[i] == ']';
    }
    if ']' in key {
      var i :| 0 <= i < |key| && key[i] == ']';
      assert c[|storage| + 1 + i] == ']';
    }
  }

  /* What is read, whoever printed it. */

  /** Up to 64 of the characters of a waveform. */
  predicate Waveform(s: string) {
    1 <= |s| <= 64 && forall i :: 0 <= i < |s| ==>
      '0' <= s[i] <= '9' || 'a' <= s[i] <= 'z' || 'A' <= s[i] <= 'Z' || s[i] == '_' || s[i] == '-'
  }

  /** A token with a key gives back each field that is in its range, and nothing for the others. */
  lemma TokenSays(storage: string, key: string, m: Meta, name: string)
    requires '#' !in storage && '#' !in key && key != ""
    ensures var r := SplitRef(Capture(storage, key, m, name));
            && r.storage == storage && r.key == key && r.name == SafeName(name)
            && r.meta.size == (if 0 < m.size <= 1099511627776 then m.size else 0)
            && r.meta.duration == (if 0 < m.duration <= 21600000 then m.duration else 0)
            && r.meta.peaks == (if Waveform(m.peaks) then m.peaks else "")
  {
    TokenReadsBackIff(storage, key, m, name);
  }

  /** Whatever segment is read, no field comes out of its range. */
  lemma ParsedIsInRange(segment: string)
    requires Parse(segment).Some?
    ensures var r := Parse(segment).value;
            0 <= r.size <= 1099511627776 && 0 <= r.duration <= 21600000 && (r.peaks == "" || Waveform(r.peaks))
    ensures |segment| <= 256
  {
    ReadInRange(Split(segment, ';')[1..]);
  }

  lemma {:induction false} ReadInRange(fs: seq<string>)
    ensures var r := ReadAll(fs);
            0 <= r.size <= 1099511627776 && 0 <= r.duration <= 21600000 && (r.peaks == "" || Waveform(r.peaks))
  {
    if fs != [] { ReadInRange(fs[..|fs| - 1]); }
  }

  /** A segment of well-formed fields, in any number and order, is read field by field. */
  lemma FieldsAreRead(fs: seq<string>)
    requires forall i :: 0 <= i < |fs| ==> GoodPart(fs[i])
    requires |Joined(["nx1"] + fs)| <= 256
    ensures Parse(Joined(["nx1"] + fs)) == Some(ReadAll(fs))
  {
    var parts := ["nx1"] + fs;
    forall i | 0 <= i < |parts| ensures ';' !in parts[i] && (i > 0 ==> IsField(parts[i])) {
      if i > 0 { assert GoodPart(fs[i - 1]); }
    }
    SplitUndoesJoin(parts);
    assert parts[1..] == fs;
  }

  predicate UnknownKey(f: string) {
    var key := f[..IndexOf(f, '=')]; key != "s" && key != "d" && key != "w"
  }

  lemma LastOfTwo(a: seq<string>, b: seq<string>)
    requires b != []
    ensures (a + b)[..|a + b| - 1] == a + b[..|b| - 1] && (a + b)[|a + b| - 1] == b[|b| - 1]
  {
  }

  /** A field of a later version, wherever it stands, changes nothing. */
  lemma {:induction false} UnknownFieldIgnored(a: seq<string>, f: string, b: seq<string>)
    requires UnknownKey(f)
    ensures ReadAll(a + [f] + b) == ReadAll(a + b)
    decreases |b|
  {
    if b == [] {
      assert a + [f] + b == a + [f] && a + b == a && (a + [f])[..|a|] == a;
    } else {
      var n := |b| - 1;
      UnknownFieldIgnored(a, f, b[..n]);
      LastOfTwo(a + [f], b);
      LastOfTwo(a, b);
    }
  }
}
