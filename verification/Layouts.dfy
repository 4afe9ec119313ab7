/**
File names: what an entry or a set-aside file of a digest and form is called, and reading
such names back.

A path is its components below the store's root, so the root itself is empty.
*/
module Layouts {
  import opened Wrappers
  import opened Digests
  import opened Sequences

  type Path = seq<string>

  const COMPRESSED := ".zst"
  const ENCRYPTED := ".enc"
  const QUARANTINE_SUFFIX := ".corrupt"

  /** Plain, compressed, or compressed and sealed. */
  datatype Form = Raw | Zstd | Enc {
    predicate IsCompressed() { Zstd? || Enc? }

    predicate IsEncrypted() { Enc? }

    /** All three, this one first. */
    function WithOthersAfter(): (forms: seq<Form>)
      ensures |forms| == 3 && forms[0] == this && forms[1] != this && forms[2] != this && forms[1] != forms[2]
    {
      match this
      case Raw => [Raw, Zstd, Enc]
      case Zstd => [Zstd, Enc, Raw]
      case Enc => [Enc, Zstd, Raw]
    }

    function AsU8(): nat {
      match this
      case Raw => 0
      case Zstd => 1
      case Enc => 2
    }

    static function FromU8(value: nat): Form {
      if value == 1 then Zstd else if value == 2 then Enc else Raw
    }
  }

  datatype Layout = Layout(suffix: string, depth: nat) {
    predicate Valid() { Dotted(suffix) }

    /** What follows the digest in an entry's name. */
    function Tail(form: Form): string {
      suffix + (if form.IsCompressed() then COMPRESSED else "") + (if form.IsEncrypted() then ENCRYPTED else "")
    }

    function FileName(digest: Digest, form: Form): string {
      var name := digest + suffix;
      var name := if form.IsCompressed() then name + COMPRESSED else name;
      if form.IsEncrypted() then name + ENCRYPTED else name
    }

    function Shard(digest: Digest): Option<Path> { Shards(digest, depth) }

    /** Read a file name back, longest tail first. */
    function ParseName(name: string): Option<(Digest, Form)> {
      var (stem, form) :=
        match StripSuffix(name, Tail(Enc))
        case Some(stem) => (Some(stem), Enc)
        case None =>
          match StripSuffix(name, Tail(Zstd))
          case Some(stem) => (Some(stem), Zstd)
          case None => (StripSuffix(name, suffix), Raw);
      if stem.None? then None
      else match Parse(stem.value)
        case None => None
        case Some(digest) => Some((digest, form))
    }

    /** Read a set-aside file's name back. */
    function ParseQuarantined(name: string): Option<(Digest, Form)> {
      match StripQuarantine(name)
      case None => None
      case Some(entry) => ParseName(entry)
    }

    /** Read a name either way. */
    function Named(name: string): Option<(Digest, Form)> {
      if ParseName(name).Some? then ParseName(name) else ParseQuarantined(name)
    }
  }

  function QuarantineName(name: string, serial: nat): string {
    if serial == 0 then name + QUARANTINE_SUFFIX else name + QUARANTINE_SUFFIX + "." + Decimal(serial)
  }

  /** The name a file was set aside from: marked plainly, or numbered because that was taken. */
  function StripQuarantine(name: string): Option<string> {
    match StripSuffix(name, QUARANTINE_SUFFIX)
    case Some(entry) => Some(entry)
    case None =>
      match LastDot(name)
      case None => None
      case Some(dot) =>
        var serial := name[dot + 1..];
        if serial == "" || !AllDigits(serial) then None
        else StripSuffix(name[..dot], QUARANTINE_SUFFIX)
  }

  // -- strings ------------------------------------------------------------

  predicate EndsWith(s: string, suffix: string) {
    |s| >= |suffix| && s[|s| - |suffix|..] == suffix
  }

  function StripSuffix(s: string, suffix: string): (r: Option<string>)
    ensures r.Some? ==> s == r.value + suffix
  {
    if EndsWith(s, suffix) then Some(s[..|s| - |suffix|]) else None
  }

  predicate AllDigits(s: string) { forall i | 0 <= i < |s| :: IsDigit(s[i]) }

  /** Where the last dot is. */
  function LastDot(s: string): (r: Option<nat>)
    ensures r.Some? ==> r.value < |s| && s[r.value] == '.' && forall i | r.value < i < |s| :: s[i] != '.'
    ensures r.None? ==> '.' !in s
  {
    if s == "" then None
    else if s[|s| - 1] == '.' then Some(|s| - 1)
    else LastDot(s[..|s| - 1])
  }

  function Decimal(n: nat): (s: string)
    ensures |s| > 0 && AllDigits(s)
  {
    if n < 10 then [DigitChar(n)] else Decimal(n / 10) + [DigitChar(n % 10)]
  }

  function DigitChar(n: nat): (c: char)
    requires n < 10
    ensures IsDigit(c) && (c as int) == ('0' as int) + n
  {
    ('0' as int + n) as char
  }

  /** Reading decimal digits back. */
  function DecimalValue(s: string): int {
    if s == "" then 0 else DecimalValue(s[..|s| - 1]) * 10 + (s[|s| - 1] as int - '0' as int)
  }

  /** Digits that stand for the number, without a zero too many in front. */
  lemma {:induction false} DecimalRoundTrip(n: nat)
    ensures DecimalValue(Decimal(n)) == n
    ensures |Decimal(n)| > 1 ==> Decimal(n)[0] != '0'
    decreases n
  {
    if n < 10 {
      assert Decimal(n)[..0] == "";
    } else {
      DecimalRoundTrip(n / 10);
      assert Decimal(n)[..|Decimal(n)| - 1] == Decimal(n / 10);
      assert DecimalValue("0") == 0 by {
        assert "0"[..0] == "";
      }
    }
  }

  // -- suffixes -----------------------------------------------------------

  /** White space as Unicode has it. */
  predicate IsWhite(c: char) {
    var n := c as int;
    || 0x09 <= n <= 0x0d || n == 0x20 || n == 0x85 || n == 0xa0 || n == 0x1680
    || 0x2000 <= n <= 0x200a || n == 0x2028 || n == 0x2029 || n == 0x202f || n == 0x205f || n == 0x3000
  }

  function TrimStart(s: string): string {
    if s != "" && IsWhite(s[0]) then TrimStart(s[1..]) else s
  }

  function TrimEnd(s: string): string {
    if s != "" && IsWhite(s[|s| - 1]) then TrimEnd(s[..|s| - 1]) else s
  }

  function NormaliseSuffix(suffix: string): string {
    var trimmed := TrimEnd(TrimStart(suffix));
    if trimmed == "" || trimmed == "." then ""
    else if trimmed[0] == '.' then trimmed
    else "." + trimmed
  }

  /** Empty, or starting with a dot. */
  predicate Dotted(s: string) { s == "" || s[0] == '.' }

  lemma WhiteCharacters(c: char)
    ensures IsWhite(c) <==>
            c in "\t\n\U{00000b}\U{00000c}\r \U{000085}\U{0000a0}\U{001680}\U{002000}\U{002001}\U{002002}\U{002003}\U{002004}"
                 + "\U{002005}\U{002006}\U{002007}\U{002008}\U{002009}\U{00200a}\U{002028}\U{002029}\U{00202f}\U{00205f}\U{003000}"
  {
  }

  predicate AllWhite(s: string) { forall i | 0 <= i < |s| :: IsWhite(s[i]) }

  /** Neither beginning nor ending with white space. */
  predicate Bare(s: string) { s == "" || (!IsWhite(s[0]) && !IsWhite(s[|s| - 1])) }

  lemma {:induction false} TrimStartShape(s: string) returns (white: string)
    ensures s == white + TrimStart(s) && AllWhite(white)
    ensures TrimStart(s) == "" || !IsWhite(TrimStart(s)[0])
    decreases |s|
  {
    white := "";
    if s != "" && IsWhite(s[0]) {
      var more := TrimStartShape(s[1..]);
      white := [s[0]] + more;
    }
  }

  lemma {:induction false} TrimEndShape(s: string) returns (white: string)
    ensures s == TrimEnd(s) + white && AllWhite(white)
    ensures TrimEnd(s) == "" || !IsWhite(TrimEnd(s)[|TrimEnd(s)| - 1])
    decreases |s|
  {
    white := "";
    if s != "" && IsWhite(s[|s| - 1]) {
      var more := TrimEndShape(s[..|s| - 1]);
      white := more + [s[|s| - 1]];
    }
  }

  /**
  What a suffix becomes, for white space in front and behind: nothing if that is all
  there is of it, or a dot besides; itself if it begins with a dot; or a dot and it.
  */
  lemma {:induction false} NormalisedExactly(suffix: string) returns (before: string, core: string, after: string)
    ensures suffix == before + core + after && AllWhite(before) && AllWhite(after) && Bare(core)
    ensures NormaliseSuffix(suffix) == if core == "" || core == "." then "" else if core[0] == '.' then core else "." + core
  {
    before := TrimStartShape(suffix);
    var inner := TrimStart(suffix);
    after := TrimEndShape(inner);
    core := TrimEnd(inner);
    assert core != "" ==> core[0] == inner[0];
    assert suffix == before + (core + after);
  }

  /** Whatever a caller asks for becomes no suffix or a dotted one, and normalising settles. */
  lemma {:induction false} NormalisedSuffix(suffix: string)
    ensures Dotted(NormaliseSuffix(suffix)) && NormaliseSuffix(suffix) != "."
    ensures NormaliseSuffix(NormaliseSuffix(suffix)) == NormaliseSuffix(suffix)
  {
    var inner := TrimStart(suffix);
    var _ := TrimStartShape(suffix);
    var _ := TrimEndShape(inner);
    var once := NormaliseSuffix(suffix);
    if once != "" {
      var trimmed := TrimEnd(inner);
      assert trimmed[0] == inner[0];
      assert once[|once| - 1] == trimmed[|trimmed| - 1];
      assert TrimStart(once) == once && TrimEnd(once) == once;
    }
  }

  // -- the codec ----------------------------------------------------------

  /** How many hex characters a string begins with. */
  function HexRun(s: string): nat {
    if s == "" || !IsHex(s[0]) then 0 else 1 + HexRun(s[1..])
  }

  lemma {:induction false} HexRunIsStem(stem: string, tail: string)
    requires AllHex(stem) && (tail == "" || !IsHex(tail[0]))
    ensures HexRun(stem + tail) == |stem|
    decreases |stem|
  {
    if stem == "" {
      assert stem + tail == tail;
    } else {
      assert (stem + tail)[1..] == stem[1..] + tail;
      HexRunIsStem(stem[1..], tail);
    }
  }

  /** Hex followed by nothing or a dot comes apart in one way only. */
  lemma SplitUnique(stem: string, tail: string, stem': string, tail': string)
    requires stem + tail == stem' + tail'
    requires AllHex(stem) && Dotted(tail) && AllHex(stem') && Dotted(tail')
    ensures stem == stem' && tail == tail'
  {
    HexRunIsStem(stem, tail);
    HexRunIsStem(stem', tail');
    assert (stem + tail)[..|stem|] == stem && (stem' + tail')[..|stem'|] == stem';
    assert (stem + tail)[|stem|..] == tail && (stem' + tail')[|stem'|..] == tail';
  }

  /** A longer dotted tail would reach into the hex. */
  lemma NoLongerTail(stem: string, tail: string, longer: string)
    requires AllHex(stem) && Dotted(longer) && |longer| > |tail|
    ensures !EndsWith(stem + tail, longer)
  {
    var name := stem + tail;
    if |name| >= |longer| {
      var at := |name| - |longer|;
      assert name[at] == stem[at] && name[at..][0] == name[at];
    }
  }

  /** What a string has to be to stand for an entry: hex of even length and the form's tail. */
  ghost predicate EntryName(layout: Layout, name: string, stem: string, digest: Digest, form: Form) {
    name == stem + layout.Tail(form) && Parse(stem) == Some(digest)
  }

  /** Parsing is exact: a name is read as an entry if and only if it is hex and a form's tail. */
  lemma {:induction false} ParseNameExact(layout: Layout, name: string, digest: Digest, form: Form)
    requires layout.Valid()
    ensures layout.ParseName(name) == Some((digest, form)) <==>
            exists stem :: EntryName(layout, name, stem, digest, form)
  {
    var r := layout.ParseName(name);
    if r == Some((digest, form)) {
      var stem := StripSuffix(name, layout.Tail(form)).value;
      assert layout.Tail(Raw) == layout.suffix;
      assert EntryName(layout, name, stem, digest, form);
    }
    if stem :| EntryName(layout, name, stem, digest, form) {
      ParsesAs(layout, stem, digest, form);
    }
  }

  lemma {:induction false} ParsesAs(layout: Layout, stem: string, digest: Digest, form: Form)
    requires layout.Valid() && Parse(stem) == Some(digest)
    ensures layout.ParseName(stem + layout.Tail(form)) == Some((digest, form))
  {
    var name := stem + layout.Tail(form);
    assert layout.Tail(Raw) == layout.suffix;
    if form != Enc {
      NoLongerTail(stem, layout.Tail(form), layout.Tail(Enc));
    }
    if form == Raw {
      NoLongerTail(stem, layout.Tail(Raw), layout.Tail(Zstd));
    }
    assert EndsWith(name, layout.Tail(form));
    assert name[..|name| - |layout.Tail(form)|] == stem;
  }

  /** Printing an entry's name and reading it gives the digest and form back. */
  lemma {:induction false} NameRoundTrip(layout: Layout, digest: Digest, form: Form)
    requires layout.Valid()
    ensures layout.FileName(digest, form) == digest + layout.Tail(form)
    ensures layout.ParseName(layout.FileName(digest, form)) == Some((digest, form))
  {
    ParseCanonical(digest);
    assert layout.FileName(digest, form) == digest + layout.Tail(form);
    ParsesAs(layout, digest, digest, form);
  }

  /** Every name there is, character for character. */
  lemma NamesSpelt(layout: Layout, digest: Digest, serial: nat)
    ensures layout.FileName(digest, Raw) == digest + layout.suffix
    ensures layout.FileName(digest, Zstd) == digest + layout.suffix + ".zst"
    ensures layout.FileName(digest, Enc) == digest + layout.suffix + ".zst" + ".enc"
    ensures forall name :: QuarantineName(name, serial) == if serial == 0 then name + ".corrupt" else name + ".corrupt" + "." + Decimal(serial)
  {
  }

  /** Reading a name and printing it gives the name back exactly when its hex is lower-case. */
  lemma {:induction false} NameCanonical(layout: Layout, name: string, digest: Digest, form: Form)
    requires layout.Valid() && layout.ParseName(name) == Some((digest, form))
    ensures |name| >= |layout.Tail(form)|
    ensures layout.FileName(digest, form) == name <==> AllLowerHex(name[..|name| - |layout.Tail(form)|])
  {
    ParseNameExact(layout, name, digest, form);
    var stem :| EntryName(layout, name, stem, digest, form);
    assert name[..|name| - |layout.Tail(form)|] == stem;
    NameRoundTrip(layout, digest, form);
    ParseCanonical(stem);
    if layout.FileName(digest, form) == name {
      assert stem == name[..|stem|] == digest;
    }
  }

  /** Setting a name aside, plain or numbered, keeps the digest and form readable. */
  lemma {:induction false} QuarantineRoundTrip(layout: Layout, digest: Digest, form: Form, serial: nat)
    requires layout.Valid()
    ensures layout.ParseQuarantined(QuarantineName(layout.FileName(digest, form), serial)) == Some((digest, form))
  {
    NameRoundTrip(layout, digest, form);
    StripsBack(layout.FileName(digest, form), serial);
  }

  /** What a name is that was set aside from this one: marked, and perhaps numbered. */
  ghost predicate SetAsideFrom(name: string, entry: string, digits: string) {
    || (digits == "" && name == entry + ".corrupt")
    || (digits != "" && AllDigits(digits) && name == entry + ".corrupt" + "." + digits)
  }

  /** Reading a set-aside name is exact too: it is an entry's name, the mark, and nothing or a dot and digits. */
  lemma {:induction false} ParseQuarantinedExact(layout: Layout, name: string, digest: Digest, form: Form)
    requires layout.Valid()
    ensures layout.ParseQuarantined(name) == Some((digest, form)) <==>
            exists entry, digits :: SetAsideFrom(name, entry, digits) && layout.ParseName(entry) == Some((digest, form))
  {
    hide Layout.ParseName;
    if layout.ParseQuarantined(name) == Some((digest, form)) {
      var entry := StripQuarantine(name).value;
      var digits := DigitsOf(name, entry);
      assert SetAsideFrom(name, entry, digits) && layout.ParseName(entry) == Some((digest, form));
    }
    if entry, digits :| SetAsideFrom(name, entry, digits) && layout.ParseName(entry) == Some((digest, form)) {
      StripsDigits(entry, digits);
    }
  }

  lemma DigitsOf(name: string, entry: string) returns (digits: string)
    requires StripQuarantine(name) == Some(entry)
    ensures SetAsideFrom(name, entry, digits)
  {
    digits := "";
    if StripSuffix(name, QUARANTINE_SUFFIX).None? {
      var dot := LastDot(name).value;
      digits := name[dot + 1..];
      assert name == name[..dot] + "." + digits;
    }
  }

  lemma {:induction false} StripsDigits(entry: string, digits: string)
    requires AllDigits(digits)
    ensures StripQuarantine(if digits == "" then entry + ".corrupt" else entry + ".corrupt" + "." + digits) == Some(entry)
  {
    var head := entry + QUARANTINE_SUFFIX;
    assert EndsWith(head, QUARANTINE_SUFFIX);
    if digits != "" {
      var name := head + "." + digits;
      assert name[|name| - 1] == digits[|digits| - 1] == name[|name| - 8..][7];
      assert QUARANTINE_SUFFIX[7] == 't';
      assert name[|head|] == '.' && forall i | |head| < i < |name| :: name[i] == digits[i - |head| - 1];
      assert LastDot(name) == Some(|head|);
      assert name[..|head|] == head && name[|head| + 1..] == digits;
    }
  }

  lemma {:induction false} StripsBack(entry: string, serial: nat)
    ensures StripQuarantine(QuarantineName(entry, serial)) == Some(entry)
  {
    StripsDigits(entry, if serial == 0 then "" else Decimal(serial));
  }

  /** No two of digest, form and serial share a set-aside name. */
  lemma {:induction false} QuarantineInjective(layout: Layout, d: Digest, f: Form, n: nat, d': Digest, f': Form, n': nat)
    requires layout.Valid()
    requires QuarantineName(layout.FileName(d, f), n) == QuarantineName(layout.FileName(d', f'), n')
    ensures d == d' && f == f' && n == n'
  {
    QuarantineRoundTrip(layout, d, f, n);
    QuarantineRoundTrip(layout, d', f', n');
    var head := layout.FileName(d, f) + QUARANTINE_SUFFIX;
    var name, name' := QuarantineName(layout.FileName(d, f), n), QuarantineName(layout.FileName(d, f), n');
    assert name[|head|..] == name'[|head|..];
    if n != 0 && n' != 0 {
      assert name[|head|..][1..] == Decimal(n) && name'[|head|..][1..] == Decimal(n');
      DecimalRoundTrip(n);
      DecimalRoundTrip(n');
    }
  }

  /** What parses as set aside is hex, a form's tail, and something from the first dot of `.corrupt` on. */
  lemma {:induction false} QuarantinedShape(layout: Layout, name: string) returns (stem: string, form: Form, end: string)
    requires layout.Valid() && layout.ParseQuarantined(name).Some?
    ensures name == stem + (layout.Tail(form) + end) && AllHex(stem)
    ensures QUARANTINE_SUFFIX <= end
  {
    var entry := StripQuarantine(name).value;
    end := MarkOf(name, entry);
    stem, form := EntryShape(layout, entry);
    Assoc(stem, layout.Tail(form), end);
  }

  lemma MarkOf(name: string, entry: string) returns (end: string)
    requires StripQuarantine(name) == Some(entry)
    ensures name == entry + end && QUARANTINE_SUFFIX <= end
  {
    end := QUARANTINE_SUFFIX;
    if StripSuffix(name, QUARANTINE_SUFFIX).None? {
      var dot := LastDot(name).value;
      end := QUARANTINE_SUFFIX + name[dot..];
      assert name == name[..dot] + name[dot..];
      assert name == (entry + QUARANTINE_SUFFIX) + name[dot..] == entry + end;
    }
  }

  lemma {:induction false} EntryShape(layout: Layout, name: string) returns (stem: string, form: Form)
    requires layout.Valid() && layout.ParseName(name).Some?
    ensures name == stem + layout.Tail(form) && AllHex(stem)
  {
    var (digest, f) := layout.ParseName(name).value;
    form := f;
    ParseNameExact(layout, name, digest, form);
    stem :| EntryName(layout, name, stem, digest, form);
  }

  /** No string is both an entry's name and a set-aside one, whatever the suffix. */
  lemma {:induction false} EntryOrQuarantined(layout: Layout, name: string)
    requires layout.Valid()
    ensures !(layout.ParseName(name).Some? && layout.ParseQuarantined(name).Some?)
  {
    if layout.ParseName(name).Some? && layout.ParseQuarantined(name).Some? {
      var stem, form := EntryShape(layout, name);
      var stem', form', end := QuarantinedShape(layout, name);
      TailsDiffer(layout, form, form', end);
      SplitUnique(stem, layout.Tail(form), stem', layout.Tail(form') + end);
    }
  }

  lemma TailsDiffer(layout: Layout, form: Form, form': Form, end: string)
    requires QUARANTINE_SUFFIX <= end
    ensures layout.Tail(form) != layout.Tail(form') + end
  {
    var a, b := layout.Tail(form), layout.Tail(form') + end;
    if |a| == |b| {
      var at := |layout.suffix| + 1;
      assert a[at] == 'z';
      assert b[at] == end[1] == QUARANTINE_SUFFIX[1];
    }
  }
}
