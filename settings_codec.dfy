/**
 * The BadUSB settings record: its constants, how a stored record is accepted
 * or rejected on load, the record that save writes, and how the two meet.
 *
 * The functions here are the specification that the imperative load and save
 * of the application (module BadUsb) are proved against.
 */
module SettingsCodec {
  import opened Wrappers
  import opened FlipperFormat

  /** Folders from the application's private header; only the default layout path is relied upon. */
  const BaseFolder: string := "/ext/badusb"
  const LayoutFolder: string := BaseFolder + "/assets/layouts"

  const FileType: string := "Flipper BadUSB Settings File"
  const Version: u32 := 1
  const DefaultLayout: string := LayoutFolder + "/en-US.kl"
  /** The only size a keyboard layout file may have. */
  const LayoutSize: nat := 256

  const LayoutKey: string := "layout"
  const InterfaceKey: string := "interface"

  /** BadUsbHidInterface: the transport the script types through. */
  datatype HidInterface = Usb | Ble {
    /** The number stored in the settings file. */
    function Id(): (r: u32) {
      if Usb? then 0 else 1
    }
  }

  /** The range check of load: any number above the BLE identifier rejects the record. */
  function InterfaceFromId(n: u32): (r: Option<HidInterface>)
    ensures r.Some? <==> n <= Ble.Id()
    ensures r.Some? ==> r.value.Id() == n
  {
    if n > Ble.Id() then None
    else if n == Usb.Id() then Some(Usb)
    else Some(Ble)
  }

  /** The two persisted fields of the application. */
  datatype Settings = Settings(layout: string, iface: HidInterface)

  const Defaults: Settings := Settings(DefaultLayout, Usb)

  /**
   * The validation chain of load: the file opens, the header reads with the
   * exact file type and version, then a layout string and an interface number
   * in range follow. Any failure rejects the whole record.
   */
  function ParseRecord(file: Option<seq<Entry>>): (r: Option<Settings>)
    ensures r.Some? ==> file.Some?
    ensures r.Some? ==> Entry(FiletypeKey, Text(FileType)) in file.value
    ensures r.Some? ==> Entry(VersionKey, Number(Version)) in file.value
    ensures r.Some? ==> Entry(LayoutKey, Text(r.value.layout)) in file.value
    ensures r.Some? ==> Entry(InterfaceKey, Number(r.value.iface.Id())) in file.value
  {
    match file
    case None => None
    case Some(f) => ParseEntries(f)
  }

  /** The chain once the file is open: the header, then the fields after it. */
  function ParseEntries(f: seq<Entry>): (r: Option<Settings>)
    ensures r.Some? ==> Entry(FiletypeKey, Text(FileType)) in f && Entry(VersionKey, Number(Version)) in f
    ensures r.Some? ==> Entry(LayoutKey, Text(r.value.layout)) in f
    ensures r.Some? ==> Entry(InterfaceKey, Number(r.value.iface.Id())) in f
  {
    match ReadHeader(f, 0)
    case None => None
    case Some(header) =>
      if header.value.0 != FileType || header.value.1 != Version then None
      else ParseFields(f, header.next)
  }

  /** The chain after the header: the layout string, then the interface after it. */
  function ParseFields(f: seq<Entry>, cursor: nat): (r: Option<Settings>)
    ensures r.Some? ==> Entry(LayoutKey, Text(r.value.layout)) in f
    ensures r.Some? ==> Entry(InterfaceKey, Number(r.value.iface.Id())) in f
  {
    match ReadString(f, cursor, LayoutKey)
    case None => None
    case Some(layout) => ParseInterface(f, layout.value, layout.next)
  }

  /** The end of the chain: the interface number and its range check. */
  function ParseInterface(f: seq<Entry>, layout: string, cursor: nat): (r: Option<Settings>)
    ensures r.Some? ==> r.value.layout == layout
    ensures r.Some? ==> Entry(InterfaceKey, Number(r.value.iface.Id())) in f
  {
    match ReadUint32(f, cursor, InterfaceKey)
    case None => None
    case Some(id) =>
      match InterfaceFromId(id.value)
      case None => None
      case Some(iface) => Some(Settings(layout, iface))
  }

  /** The stat check: the layout file exists and has exactly the layout size. */
  predicate LayoutValid(layoutSizes: map<string, nat>, path: string) {
    path in layoutSizes && layoutSizes[path] == LayoutSize
  }

  /**
   * What load leaves in the application, given the settings file (None when it
   * cannot be opened) and the sizes that stat reports for existing files.
   */
  function Load(file: Option<seq<Entry>>, layoutSizes: map<string, nat>): (r: Settings)
    ensures ParseRecord(file).None? ==> r == Defaults
    ensures ParseRecord(file).Some? ==> r.iface == ParseRecord(file).value.iface
    ensures r.layout == DefaultLayout
            || (ParseRecord(file).Some? && r.layout == ParseRecord(file).value.layout && LayoutValid(layoutSizes, r.layout))
    ensures ParseRecord(file).Some? && LayoutValid(layoutSizes, ParseRecord(file).value.layout) ==> r == ParseRecord(file).value
  {
    match ParseRecord(file)
    case None => Defaults
    case Some(stored) =>
      if LayoutValid(layoutSizes, stored.layout) then stored
      else stored.(layout := DefaultLayout)
  }

  /** The complete record save writes: header, layout, interface. */
  function Record(s: Settings): (r: seq<Entry>)
    ensures |r| == 4
  {
    HeaderEntries(FileType, Version) + [Entry(LayoutKey, Text(s.layout)), Entry(InterfaceKey, Number(s.iface.Id()))]
  }

  /**
   * How the storage answers save: whether the file opens (create or truncate),
   * and how many of the three write calls succeed before the first one fails.
   */
  datatype WriteFaults = WriteFaults(openOk: bool, callsOk: nat)

  /** Entries on file after `calls` successful write calls; the header call writes two. */
  function EntriesWritten(calls: nat): (n: nat)
    ensures n <= 4
    ensures n == 4 <==> calls >= 3
  {
    if calls == 0 then 0 else if calls == 1 then 2 else if calls == 2 then 3 else 4
  }

  /**
   * The settings file after save: untouched when it does not open, otherwise
   * the part of the record written before the first failed call.
   */
  function Saved(prior: Option<seq<Entry>>, s: Settings, faults: WriteFaults): (r: Option<seq<Entry>>)
    ensures !faults.openOk ==> r == prior
    ensures faults.openOk ==> r.Some? && r.value <= Record(s) && |r.value| == EntriesWritten(faults.callsOk)
    ensures faults.openOk ==> (r == Some(Record(s)) <==> faults.callsOk >= 3)
  {
    if !faults.openOk then prior
    else
      var n := EntriesWritten(faults.callsOk);
      assert |Record(s)[..n]| == n;
      assert n == |Record(s)| ==> Record(s)[..n] == Record(s);
      Some(Record(s)[..n])
  }

  /** A complete record reads back as the settings it was written from. */
  lemma RecordRoundTrip(s: Settings)
    ensures ParseRecord(Some(Record(s))) == Some(s)
  {
    var f := Record(s);
    assert ReadHeader(f, 0) == Some(Read((FileType, Version), 2));
    assert Seek(f, 2, LayoutKey) == Some(2);
    assert ReadString(f, 2, LayoutKey) == Some(Read(s.layout, 3));
    assert Seek(f, 3, InterfaceKey) == Some(3);
  }

  /** Every proper prefix of the record is rejected: a save cut short is never half-applied. */
  lemma TruncatedRecordRejected(s: Settings, n: nat)
    requires n < |Record(s)|
    ensures ParseRecord(Some(Record(s)[..n])) == None
  {
    var f := Record(s)[..n];
    if n < 2 {
      assert forall i :: 0 <= i < |f| ==> f[i].key == FiletypeKey ==> i == 0;
      if n == 1 {
        assert Seek(f, 1, VersionKey) == None;
      }
    } else {
      assert f[..2] == HeaderEntries(FileType, Version);
      assert Seek(f, 0, FiletypeKey) == Some(0);
      assert Seek(f, 1, VersionKey) == Some(1);
      if n == 3 {
        assert Seek(f, 2, LayoutKey) == Some(2);
      }
    }
  }

  /** Load after a complete save restores the settings exactly when their layout passes the stat check or is the default. */
  lemma LoadAfterSave(s: Settings, layoutSizes: map<string, nat>)
    ensures Load(Some(Record(s)), layoutSizes) == s <==> LayoutValid(layoutSizes, s.layout) || s.layout == DefaultLayout
  {
    RecordRoundTrip(s);
  }

  /** Saving what load produced and loading again gives the same settings. */
  lemma SaveLoadFixedPoint(file: Option<seq<Entry>>, prior: Option<seq<Entry>>, faults: WriteFaults, layoutSizes: map<string, nat>)
    requires faults.openOk && faults.callsOk >= 3
    ensures Load(Saved(prior, Load(file, layoutSizes), faults), layoutSizes) == Load(file, layoutSizes)
  {
    LoadAfterSave(Load(file, layoutSizes), layoutSizes);
  }

  /**
   * A save whose writes stop early leaves a file that the next load rejects.
   * This holds under whole-entry writes: a failed write call appends nothing
   * (see `Storage.Write`); a partially written line is outside the model.
   */
  lemma FailedSaveLoadsDefaults(prior: Option<seq<Entry>>, s: Settings, faults: WriteFaults, layoutSizes: map<string, nat>)
    requires faults.openOk && faults.callsOk < 3
    ensures Load(Saved(prior, s, faults), layoutSizes) == Defaults
  {
    TruncatedRecordRejected(s, EntriesWritten(faults.callsOk));
  }

  /**
   * The fallback cases of load: no file, no header with the expected type or
   * version, no layout string, or no interface number in range. Each yields
   * exactly the defaults; nothing of the file is applied.
   */
  lemma LoadRejectsMalformed(file: Option<seq<Entry>>, layoutSizes: map<string, nat>)
    requires file.None?
             || Entry(FiletypeKey, Text(FileType)) !in file.value
             || Entry(VersionKey, Number(Version)) !in file.value
             || (forall e :: e in file.value && e.key == LayoutKey ==> !e.value.Text?)
             || (forall e :: e in file.value && e.key == InterfaceKey ==> !(e.value.Number? && e.value.number <= Ble.Id()))
    ensures Load(file, layoutSizes) == Defaults
  {
    if ParseRecord(file).Some? {
      var stored := ParseRecord(file).value;
      assert Entry(LayoutKey, Text(stored.layout)) in file.value;
      assert Entry(InterfaceKey, Number(stored.iface.Id())) in file.value;
    }
  }

  /** Entry `l` is the first `layout` entry after entry `k`. */
  ghost predicate LayoutAt(f: seq<Entry>, k: int, l: int) {
    FirstFrom(f, k + 1, l, LayoutKey)
  }

  /** Entry `m` is the first `interface` entry after entry `l`. */
  ghost predicate InterfaceAt(f: seq<Entry>, l: int, m: int) {
    FirstFrom(f, l + 1, m, InterfaceKey)
  }

  /** The first `Filetype` entry is not the expected file type, or there is none. */
  ghost predicate ForeignTag(f: seq<Entry>) {
    forall i :: FirstFrom(f, 0, i, FiletypeKey) ==> f[i].value != Text(FileType)
  }

  /** The first `Version` entry after the first `Filetype` entry is not version 1, or there is none. */
  ghost predicate ForeignVersion(f: seq<Entry>) {
    forall i, k :: HeaderFrom(f, 0, i, k) ==> f[k].value != Number(Version)
  }

  /** The first `layout` entry after the header is not a string, or there is none. */
  ghost predicate NoLayoutString(f: seq<Entry>) {
    forall i, k, l :: HeaderFrom(f, 0, i, k) && LayoutAt(f, k, l) ==> !f[l].value.Text?
  }

  /** The first `interface` entry after that layout is not a number up to the BLE identifier, or there is none. */
  ghost predicate NoInterfaceInRange(f: seq<Entry>) {
    forall i, k, l, m :: HeaderFrom(f, 0, i, k) && LayoutAt(f, k, l) && InterfaceAt(f, l, m)
                         ==> !(f[m].value.Number? && f[m].value.number <= Ble.Id())
  }

  /** The reject cases of load, stated over the entries each read reaches in order. */
  ghost predicate Rejected(file: Option<seq<Entry>>) {
    file.None? || ForeignTag(file.value) || ForeignVersion(file.value)
    || NoLayoutString(file.value) || NoInterfaceInRange(file.value)
  }

  /**
   * Load's validation chain rejects a file exactly in the reject cases: a
   * wrong or missing tag, version, layout or interface, judged on the first
   * entry with each key after the previous one, so a correct entry later in
   * the file does not rescue it.
   */
  lemma ParseRecordRejectsExactly(file: Option<seq<Entry>>)
    ensures ParseRecord(file).None? <==> Rejected(file)
  {
    if file.Some? {
      if ParseEntries(file.value).Some? {
        AcceptedNotRejected(file.value);
      } else if !Rejected(file) {
        NotRejectedAccepted(file.value);
      }
    }
  }

  /** An accepted file meets none of the reject cases. */
  lemma AcceptedNotRejected(f: seq<Entry>)
    requires ParseEntries(f).Some?
    ensures !Rejected(Some(f))
  {
    var i, k, l, m := EntriesAccepted(f);
    assert !ForeignTag(f) by { assert FirstFrom(f, 0, i, FiletypeKey); }
    assert !ForeignVersion(f) by { assert HeaderFrom(f, 0, i, k); }
    assert !NoLayoutString(f) by { assert HeaderFrom(f, 0, i, k) && LayoutAt(f, k, l); }
    assert HeaderFrom(f, 0, i, k) && LayoutAt(f, k, l) && InterfaceAt(f, l, m);
  }

  /** A file that meets none of the reject cases is accepted. */
  lemma NotRejectedAccepted(f: seq<Entry>)
    requires !Rejected(Some(f))
    ensures ParseEntries(f).Some?
  {
    var i, k, l, m :| HeaderFrom(f, 0, i, k) && LayoutAt(f, k, l) && InterfaceAt(f, l, m)
                      && f[m].value.Number? && f[m].value.number <= Ble.Id();
    EntriesFound(f, i, k, l, m);
  }

  /** Where an accepted interface comes from: the first `interface` entry from the cursor, in range. */
  lemma InterfaceAccepted(f: seq<Entry>, layout: string, cursor: nat) returns (m: int)
    requires ParseInterface(f, layout, cursor).Some?
    ensures FirstFrom(f, cursor, m, InterfaceKey) && f[m].value.Number? && f[m].value.number <= Ble.Id()
  {
    m := ReadUint32(f, cursor, InterfaceKey).value.next - 1;
  }

  /** Where accepted fields come from: the first `layout` entry, a string, then an accepted interface after it. */
  lemma FieldsAccepted(f: seq<Entry>, cursor: nat) returns (l: int, m: int)
    requires ParseFields(f, cursor).Some?
    ensures FirstFrom(f, cursor, l, LayoutKey) && f[l].value.Text?
    ensures InterfaceAt(f, l, m) && f[m].value.Number? && f[m].value.number <= Ble.Id()
  {
    var layout := ReadString(f, cursor, LayoutKey).value;
    l := layout.next - 1;
    m := InterfaceAccepted(f, layout.value, layout.next);
  }

  /** Where an accepted record comes from: the header entries the read reaches hold the expected values, and the fields follow. */
  lemma EntriesAccepted(f: seq<Entry>) returns (i: int, k: int, l: int, m: int)
    requires ParseEntries(f).Some?
    ensures HeaderFrom(f, 0, i, k) && f[i].value == Text(FileType) && f[k].value == Number(Version)
    ensures LayoutAt(f, k, l) && f[l].value.Text?
    ensures InterfaceAt(f, l, m) && f[m].value.Number? && f[m].value.number <= Ble.Id()
  {
    var header := ReadHeader(f, 0).value;
    i := Seek(f, 0, FiletypeKey).value;
    k := header.next - 1;
    l, m := FieldsAccepted(f, header.next);
  }

  /**
   * The converse, and which entries the accepted value comes from: the first
   * `layout` entry after the header and the first `interface` entry after it,
   * whatever other entries with those keys the file holds.
   */
  lemma EntriesFound(f: seq<Entry>, i: int, k: int, l: int, m: int)
    requires HeaderFrom(f, 0, i, k) && f[i].value == Text(FileType) && f[k].value == Number(Version)
    requires LayoutAt(f, k, l) && f[l].value.Text?
    requires InterfaceAt(f, l, m) && f[m].value.Number? && f[m].value.number <= Ble.Id()
    ensures ParseRecord(Some(f)) == Some(Settings(f[l].value.text, InterfaceFromId(f[m].value.number).value))
  {
    assert ReadHeader(f, 0) == Some(Read((FileType, Version), k + 1));
    assert ReadString(f, k + 1, LayoutKey) == Some(Read(f[l].value.text, l + 1));
  }
}
