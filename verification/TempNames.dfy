/** What a writer's temporary file is called, and why it is never taken for anything else. */
module TempNames {
  import opened Wrappers
  import opened Digests
  import opened Layouts

  const DIR := "tmp"
  const SUFFIX := ".tmp"

  function TempName(pid: nat, serial: nat): string {
    Decimal(pid) + "-" + Decimal(serial) + SUFFIX
  }

  /** Where the first dash is. */
  function FirstDash(s: string): (r: Option<nat>)
    ensures r.Some? ==> r.value < |s| && s[r.value] == '-' && forall i | 0 <= i < r.value :: s[i] != '-'
    ensures r.None? ==> '-' !in s
  {
    if s == "" then None
    else if s[0] == '-' then Some(0)
    else match FirstDash(s[1..])
      case None => None
      case Some(at) => Some(at + 1)
  }

  /** Digits, a dash, digits and the suffix: what a sweep of leftovers goes by. */
  predicate IsTempName(name: string) {
    match StripSuffix(name, SUFFIX)
    case None => false
    case Some(stem) =>
      match FirstDash(stem)
      case None => false
      case Some(dash) =>
        var pid, serial := stem[..dash], stem[dash + 1..];
        pid != "" && serial != "" && AllDigits(pid) && AllDigits(serial)
  }

  /** Every name a writer makes is recognised as one, and no two are the same. */
  lemma {:induction false} TempNameRoundTrip(pid: nat, serial: nat, pid': nat, serial': nat)
    ensures IsTempName(TempName(pid, serial))
    ensures TempName(pid, serial) == TempName(pid', serial') ==> pid == pid' && serial == serial'
  {
    TempNameParts(pid, serial);
    TempNameParts(pid', serial');
    DecimalRoundTrip(pid);
    DecimalRoundTrip(pid');
    DecimalRoundTrip(serial);
    DecimalRoundTrip(serial');
  }

  lemma TempNameParts(pid: nat, serial: nat)
    ensures var stem := Decimal(pid) + "-" + Decimal(serial);
            && StripSuffix(TempName(pid, serial), SUFFIX) == Some(stem)
            && FirstDash(stem) == Some(|Decimal(pid)|)
            && stem[..|Decimal(pid)|] == Decimal(pid) && stem[|Decimal(pid)| + 1..] == Decimal(serial)
  {
    var stem := Decimal(pid) + "-" + Decimal(serial);
    assert EndsWith(TempName(pid, serial), SUFFIX);
    assert stem[|Decimal(pid)|] == '-';
    assert forall i | 0 <= i < |Decimal(pid)| :: stem[i] == Decimal(pid)[i];
  }

  /** What is recognised is exactly two runs of digits with a dash between them and the suffix behind. */
  lemma {:induction false} TempNameExact(name: string)
    ensures IsTempName(name) <==> exists pid, serial :: MadeOf(name, pid, serial)
    ensures forall pid, serial :: MadeOf(TempName(pid, serial), Decimal(pid), Decimal(serial))
  {
    if IsTempName(name) {
      var stem := StripSuffix(name, SUFFIX).value;
      var dash := FirstDash(stem).value;
      assert stem == stem[..dash] + "-" + stem[dash + 1..];
      assert MadeOf(name, stem[..dash], stem[dash + 1..]);
    }
    if pid, serial :| MadeOf(name, pid, serial) {
      DashBetween(name, pid, serial);
    }
  }

  ghost predicate MadeOf(name: string, pid: string, serial: string) {
    pid != "" && serial != "" && AllDigits(pid) && AllDigits(serial) && name == pid + "-" + serial + ".tmp"
  }

  lemma DashBetween(name: string, pid: string, serial: string)
    requires MadeOf(name, pid, serial)
    ensures IsTempName(name)
  {
    var stem := pid + "-" + serial;
    assert EndsWith(name, SUFFIX) && StripSuffix(name, SUFFIX) == Some(stem);
    assert stem[|pid|] == '-' && forall i | 0 <= i < |pid| :: stem[i] == pid[i];
    assert FirstDash(stem) == Some(|pid|);
    assert stem[..|pid|] == pid && stem[|pid| + 1..] == serial;
  }

  /** A temporary name is neither an entry's name nor a set-aside one, whatever the suffix. */
  lemma {:induction false} TempIsNoEntry(layout: Layout, name: string)
    requires layout.Valid() && IsTempName(name)
    ensures layout.ParseName(name).None? && layout.ParseQuarantined(name).None?
  {
    var stem := StripSuffix(name, SUFFIX).value;
    var dash := FirstDash(stem).value;
    assert name == stem[..dash] + name[dash..] && name[dash] == '-';
    HexRunIsStem(stem[..dash], name[dash..]);
    if layout.ParseName(name).Some? {
      var hex, form := EntryShape(layout, name);
      NotDashed(name, dash, hex, layout.Tail(form));
    }
    if layout.ParseQuarantined(name).Some? {
      var hex, form, end := QuarantinedShape(layout, name);
      NotDashed(name, dash, hex, layout.Tail(form) + end);
    }
  }

  lemma NotDashed(name: string, dash: nat, hex: string, tail: string)
    requires dash < |name| && name[dash] == '-' && HexRun(name) == dash
    requires AllHex(hex) && Dotted(tail)
    ensures name != hex + tail
  {
    HexRunIsStem(hex, tail);
    if tail != "" {
      assert (hex + tail)[|hex|] == '.';
    }
  }

  /** The directory of temporary files is itself called what no entry is called. */
  lemma NoEntryIsTemp(layout: Layout)
    requires layout.Valid()
    ensures layout.ParseName(DIR).None?
  {
    if layout.ParseName(DIR).Some? {
      var hex, form := EntryShape(layout, DIR);
      NotHexThenDot(hex, layout.Tail(form));
    }
  }

  lemma NotHexThenDot(hex: string, tail: string)
    requires AllHex(hex) && Dotted(tail)
    ensures DIR != hex + tail
  {
    if hex == "" {
      assert hex + tail == tail;
    } else {
      assert (hex + tail)[0] == hex[0];
    }
  }
}
