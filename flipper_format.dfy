/**
 * The FlipperFormat key-value file, as far as the settings codec uses it.
 *
 * The library itself is not part of this model. A file is an ordered list of
 * entries, each a key with a string or an unsigned 32-bit value. A read looks
 * for the first entry with the requested key at or after the reader's cursor
 * and, on success, leaves the cursor just past it. A write appends entries.
 */
module FlipperFormat {
  import opened Wrappers

  newtype u32 = x: int | 0 <= x < 0x1_0000_0000

  datatype Value = Text(text: string) | Number(number: u32)

  datatype Entry = Entry(key: string, value: Value)

  /** A successful read: the value and the cursor after it. */
  datatype Read<T> = Read(value: T, next: nat)

  const FiletypeKey: string := "Filetype"
  const VersionKey: string := "Version"

  /** Position of the first entry at or after `from` whose key is `key`. */
  function Seek(file: seq<Entry>, from: nat, key: string): (r: Option<nat>)
    ensures r.Some? ==> from <= r.value < |file| && file[r.value].key == key
    ensures r.Some? ==> forall i :: from <= i < r.value ==> file[i].key != key
    ensures r.None? ==> forall i :: from <= i < |file| ==> file[i].key != key
    decreases |file| - from
  {
    if from >= |file| then None
    else if file[from].key == key then Some(from)
    else Seek(file, from + 1, key)
  }

  /**
   * Entry `i` is the first one at or after `from` whose key is `key`: the
   * position the reader stops at (FirstFromMeans spells this out).
   */
  predicate FirstFrom(file: seq<Entry>, from: int, i: int, key: string) {
    0 <= from && Seek(file, from, key) == Some(i)
  }

  /** The declarative reading of FirstFrom: a match, with no match between `from` and it. */
  lemma FirstFromMeans(file: seq<Entry>, from: nat, i: int, key: string)
    ensures FirstFrom(file, from, i, key)
            <==> from <= i < |file| && file[i].key == key && forall j :: from <= j < i ==> file[j].key != key
  {
  }

  /** flipper_format_read_string: the first `key` entry from `cursor` on, if it holds a string. */
  function ReadString(file: seq<Entry>, cursor: nat, key: string): (r: Option<Read<string>>)
    ensures r.Some? ==> cursor < r.value.next <= |file|
    ensures r.Some? ==> FirstFrom(file, cursor, r.value.next - 1, key) && file[r.value.next - 1].value == Text(r.value.value)
    ensures forall i :: FirstFrom(file, cursor, i, key) && file[i].value.Text? ==> r == Some(Read(file[i].value.text, i + 1))
    ensures (forall i :: cursor <= i < |file| ==> file[i].key != key) ==> r.None?
  {
    match Seek(file, cursor, key)
    case None => None
    case Some(i) =>
      match file[i].value
      case Text(s) => Some(Read(s, i + 1))
      case Number(_) => None
  }

  /** flipper_format_read_uint32 with a count of one. */
  function ReadUint32(file: seq<Entry>, cursor: nat, key: string): (r: Option<Read<u32>>)
    ensures r.Some? ==> cursor < r.value.next <= |file|
    ensures r.Some? ==> FirstFrom(file, cursor, r.value.next - 1, key) && file[r.value.next - 1].value == Number(r.value.value)
    ensures forall i :: FirstFrom(file, cursor, i, key) && file[i].value.Number? ==> r == Some(Read(file[i].value.number, i + 1))
    ensures (forall i :: cursor <= i < |file| ==> file[i].key != key) ==> r.None?
  {
    match Seek(file, cursor, key)
    case None => None
    case Some(i) =>
      match file[i].value
      case Number(n) => Some(Read(n, i + 1))
      case Text(_) => None
  }

  /** Entries `i` and `k` are the first `Filetype` entry from `cursor` on and the first `Version` entry after it. */
  predicate HeaderFrom(file: seq<Entry>, cursor: int, i: int, k: int) {
    FirstFrom(file, cursor, i, FiletypeKey) && FirstFrom(file, i + 1, k, VersionKey)
  }

  /**
   * flipper_format_read_header: the first `Filetype` entry from the cursor on,
   * holding a string, then the first `Version` entry after it, holding a number.
   */
  function ReadHeader(file: seq<Entry>, cursor: nat): (r: Option<Read<(string, u32)>>)
    ensures r.Some? ==> cursor < r.value.next <= |file|
    ensures r.Some? ==> Seek(file, cursor, FiletypeKey).Some?
    ensures r.Some? ==> var i := Seek(file, cursor, FiletypeKey).value;
                        HeaderFrom(file, cursor, i, r.value.next - 1)
                        && file[i].value == Text(r.value.value.0)
                        && file[r.value.next - 1].value == Number(r.value.value.1)
    ensures forall i, k :: HeaderFrom(file, cursor, i, k) && file[i].value.Text? && file[k].value.Number?
                           ==> r == Some(Read((file[i].value.text, file[k].value.number), k + 1))
    ensures (forall i :: cursor <= i < |file| ==> file[i].key != FiletypeKey) ==> r.None?
  {
    match ReadString(file, cursor, FiletypeKey)
    case None => None
    case Some(tag) =>
      match ReadUint32(file, tag.next, VersionKey)
      case None => None
      case Some(version) => Some(Read((tag.value, version.value), version.next))
  }

  /** flipper_format_write_header_cstr: the entries it appends. */
  function HeaderEntries(fileType: string, version: u32): (r: seq<Entry>)
    ensures ReadHeader(r, 0) == Some(Read((fileType, version), |r|))
  {
    [Entry(FiletypeKey, Text(fileType)), Entry(VersionKey, Number(version))]
  }
}
