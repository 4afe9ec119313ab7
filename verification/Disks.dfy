/**
A disk that can lose power.

Its directories have a history: every state they went through since the last one
that is known to be durable, the live one last. A crash brings back any of them. A
file travels through that history with its bytes and whether they were flushed; what
was flushed survives a crash, anything else may come back as any bytes at all. A file
flushed after a directory state was current still counts as unflushed there, so the
model allows more damage than a real disk does, never less.
*/
module Disks {
  import opened Wrappers
  import opened Digests
  import opened Layouts
  import opened TempNames
  import opened Forms

  datatype Blob = Blob(bytes: Bytes, flushed: bool)

  type Image = map<Path, Blob>

  type Disk = d: seq<Image> | |d| > 0 witness [map[]]

  function Live(d: Disk): Image { d[|d| - 1] }

  /** A directory operation: one more state in the history. */
  function Change(d: Disk, image: Image): Disk { d + [image] }

  /** A write to a file, which no directory sees. */
  function Touch(d: Disk, image: Image): Disk { d[|d| - 1 := image] }

  function CreateFile(d: Disk, p: Path): Disk { Change(d, Live(d)[p := Blob([], false)]) }

  function WriteFile(d: Disk, p: Path, bytes: Bytes): Disk { Touch(d, Live(d)[p := Blob(bytes, false)]) }

  function FlushFile(d: Disk, p: Path): Disk
    requires p in Live(d)
  {
    Touch(d, Live(d)[p := Blob(Live(d)[p].bytes, true)])
  }

  /** A rename replaces what lies under the new name. */
  function Move(d: Disk, from: Path, to: Path): Disk
    requires from in Live(d)
  {
    Change(d, (Live(d) - {from})[to := Live(d)[from]])
  }

  function Unlink(d: Disk, p: Path): Disk { Change(d, Live(d) - {p}) }

  /** Flushing a directory is best effort: it makes the live state durable, or does nothing. */
  function SyncDir(d: Disk, durable: bool): Disk { if durable then [Live(d)] else d }

  /** What may be found after a crash that fell back to `before`. */
  ghost predicate Survives(before: Image, after: Image) {
    && before.Keys == after.Keys
    && forall p | p in before :: before[p].flushed ==> after[p] == before[p]
  }

  /** A crash may leave any bytes at all in what was not flushed, and leave the rest alone. */
  lemma AnyBytesAfterCrash(before: Image, p: Path, found: Blob)
    requires p in before && !before[p].flushed
    ensures Survives(before, before) && Survives(before, before[p := found])
  {
  }

  // -- what a path stands for ---------------------------------------------

  /** The digest and form an entry's path names. */
  function FileOf(layout: Layout, p: Path): Option<(Digest, Form)> {
    if p == [] then None else layout.ParseName(p[|p| - 1])
  }

  /** The path a lookup of this digest in this form goes to. */
  function Place(layout: Layout, digest: Digest, form: Form): Path
    requires layout.Shard(digest).Some?
  {
    layout.Shard(digest).value + [layout.FileName(digest, form)]
  }

  /** A place in full: a directory of two characters of the digest for each level, and in it the entry's name. */
  lemma {:induction false} PlaceSpelt(layout: Layout, digest: Digest, form: Form)
    requires |digest| >= 2 * layout.depth
    ensures layout.Shard(digest).Some?
    ensures var p := Place(layout, digest, form);
            && |p| == layout.depth + 1 && p[layout.depth] == layout.FileName(digest, form)
            && forall i | 0 <= i < layout.depth :: p[i] == [digest[2 * i], digest[2 * i + 1]]
  {
    ShardsExact(digest, layout.depth);
  }

  predicate IsTempPath(p: Path) { |p| == 2 && p[0] == DIR && IsTempName(p[1]) }

  lemma PlaceNames(layout: Layout, digest: Digest, form: Form)
    requires layout.Valid() && layout.Shard(digest).Some?
    ensures FileOf(layout, Place(layout, digest, form)) == Some((digest, form))
    ensures !IsTempPath(Place(layout, digest, form))
  {
    NameRoundTrip(layout, digest, form);
    if IsTempPath(Place(layout, digest, form)) {
      TempIsNoEntry(layout, layout.FileName(digest, form));
    }
  }

  lemma TempNamesNothing(layout: Layout, p: Path)
    requires layout.Valid() && IsTempPath(p)
    ensures FileOf(layout, p).None?
  {
    TempIsNoEntry(layout, p[1]);
  }
}
