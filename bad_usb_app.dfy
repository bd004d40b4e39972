/**
 * The BadUSB application context: construction, settings load and save, and
 * teardown, with the USB configuration guard around the application's lifetime.
 *
 * The storage and the USB hardware layer are objects the application changes;
 * the GUI, the view dispatcher and the scene manager's own workings are not
 * modelled, only the scene the application starts in.
 */
module BadUsb {
  import opened Wrappers
  import opened FlipperFormat
  import opened SettingsCodec

  /** The scenes the application can be in. */
  datatype Scene = FileSelect | Config | Work | Error

  /** BadUsbAppError: the code this file sets. */
  datatype AppError = CloseRpc

  /** A USB device personality known to the hardware layer (CDC, HID, ...). */
  datatype UsbInterface = UsbInterface(name: string)

  /** An open script of the script engine, which is not part of this model. */
  datatype ScriptHandle = ScriptHandle(path: string)

  /** The calls the application makes into other subsystems, in order. */
  datatype Call = ScriptClose(handle: ScriptHandle) | SettingsSave | UsbSetConfig(config: Option<UsbInterface>)

  /** The calls construction makes: switching USB off, unless USB is locked. */
  function StartupCalls(locked: bool): (r: seq<Call>) {
    if locked then [] else [UsbSetConfig(None)]
  }

  /** The calls teardown makes: close the script, save, restore the captured USB interface. */
  function TeardownCalls(script: Option<ScriptHandle>, usbPrev: Option<UsbInterface>): (r: seq<Call>) {
    (if script.Some? then [ScriptClose(script.value)] else [])
    + [SettingsSave]
    + (if usbPrev.Some? then [UsbSetConfig(usbPrev)] else [])
  }

  /**
   * Teardown saves the settings exactly once, closes an open script before
   * anything else, and makes the USB restore its last call.
   */
  lemma TeardownOrder(script: Option<ScriptHandle>, usbPrev: Option<UsbInterface>)
    ensures multiset(TeardownCalls(script, usbPrev))[SettingsSave] == 1
    ensures script.Some? ==> TeardownCalls(script, usbPrev)[0] == ScriptClose(script.value)
    ensures usbPrev.Some? <==> Last(TeardownCalls(script, usbPrev)).UsbSetConfig?
    ensures usbPrev.Some? ==> Last(TeardownCalls(script, usbPrev)) == UsbSetConfig(usbPrev)
  {
  }

  /**
   * A whole run saves once; a run that found USB locked never sets a USB
   * configuration; otherwise USB is switched off first and, when a
   * configuration was captured, restored last.
   */
  lemma LifecycleCalls(locked: bool, captured: Option<UsbInterface>)
    ensures var log := StartupCalls(locked) + TeardownCalls(None, if locked then None else captured);
            multiset(log)[SettingsSave] == 1
    ensures var log := StartupCalls(locked) + TeardownCalls(None, if locked then None else captured);
            locked ==> forall c :: c in log ==> !c.UsbSetConfig?
    ensures var log := StartupCalls(locked) + TeardownCalls(None, if locked then None else captured);
            !locked ==> log[0] == UsbSetConfig(None)
    ensures var log := StartupCalls(locked) + TeardownCalls(None, if locked then None else captured);
            !locked && captured.Some? ==> Last(log) == UsbSetConfig(captured)
  {
    TeardownOrder(None, if locked then None else captured);
  }

  /** The final element of a non-empty sequence. */
  function Last<T>(s: seq<T>): (r: T)
    requires s != []
  {
    s[|s| - 1]
  }

  /** An entry argument that names a script: present and not the empty string. */
  predicate NamesScript(arg: Option<string>) {
    arg.Some? && |arg.value| > 0
  }

  /** The part of the storage the application touches. */
  class Storage {
    /** The settings file; None when it does not exist or cannot be opened. */
    var settingsFile: Option<seq<Entry>>
    /** What stat reports for existing files: their sizes. */
    var layoutSizes: map<string, nat>

    constructor (settingsFile: Option<seq<Entry>>, layoutSizes: map<string, nat>)
      ensures this.settingsFile == settingsFile && this.layoutSizes == layoutSizes
    {
      this.settingsFile := settingsFile;
      this.layoutSizes := layoutSizes;
    }

    /** flipper_format_file_open_always: create or truncate the settings file. */
    method OpenAlways(faults: WriteFaults) returns (ok: bool)
      modifies this`settingsFile
      ensures ok == faults.openOk
      ensures settingsFile == if ok then Some([]) else old(settingsFile)
    {
      ok := faults.openOk;
      if ok {
        settingsFile := Some([]);
      }
    }

    /** One write call of the FlipperFormat writer; `call` counts the calls of this save. */
    method Write(entries: seq<Entry>, faults: WriteFaults, call: nat) returns (ok: bool)
      requires settingsFile.Some?
      modifies this`settingsFile
      ensures ok == (call < faults.callsOk)
      ensures settingsFile == if ok then Some(old(settingsFile).value + entries) else old(settingsFile)
    {
      ok := call < faults.callsOk;
      if ok {
        settingsFile := Some(settingsFile.value + entries);
      }
    }
  }

  /** The USB hardware layer's global state. */
  class UsbHal {
    /** Set while an exclusive session (a remote-control connection) holds USB. */
    var locked: bool
    /** The active device interface (the context argument is not modelled); None when USB is disabled. */
    var config: Option<UsbInterface>

    constructor (locked: bool, config: Option<UsbInterface>)
      ensures this.locked == locked && this.config == config
    {
      this.locked := locked;
      this.config := config;
    }

    /** furi_hal_usb_set_config under furi_check: refused, and so fatal, while USB is locked. */
    method SetConfig(c: Option<UsbInterface>)
      requires !locked
      modifies this`config
      ensures config == c
    {
      config := c;
    }
  }

  /** BadUsbApp: the fields this file sets and reads. */
  class App {
    var filePath: string
    var keyboardLayout: string
    var iface: HidInterface
    /** The USB interface captured at start; None when nothing was captured. */
    var usbPrev: Option<UsbInterface>
    /** Set only when the application starts in the error scene. */
    var error: Option<AppError>
    /** The scenes entered, oldest first. */
    var scenes: seq<Scene>
    var script: Option<ScriptHandle>
    /** Every call into another subsystem so far. */
    ghost var calls: seq<Call>

    /**
     * bad_usb_app_alloc: take the entry argument as the script path, load the
     * settings, then either route to the error scene because USB is locked, or
     * capture the active USB configuration, switch USB off and start in the work
     * scene (a script was named) or the file browser at the base folder.
     */
    constructor (arg: Option<string>, storage: Storage, usb: UsbHal)
      modifies usb`config
      ensures script == None
      ensures Settings(keyboardLayout, iface) == Load(storage.settingsFile, storage.layoutSizes)
      ensures usb.locked ==> error == Some(CloseRpc) && usbPrev == None && scenes == [Error]
      ensures calls == StartupCalls(usb.locked)
      ensures usb.locked ==> usb.config == old(usb.config)
      ensures usb.locked ==> filePath == if NamesScript(arg) then arg.value else ""
      ensures !usb.locked ==> error == None && usbPrev == old(usb.config)
      ensures !usb.locked ==> usb.config == None
      ensures !usb.locked && NamesScript(arg) ==> filePath == arg.value && scenes == [Work]
      ensures !usb.locked && !NamesScript(arg) ==> filePath == BaseFolder && scenes == [FileSelect]
    {
      script := None;
      filePath := "";
      keyboardLayout := "";
      iface := Usb;
      usbPrev := None;
      error := None;
      scenes := [];
      calls := [];
      if arg.Some? && |arg.value| > 0 {
        filePath := arg.value;
      }
      new;
      assert filePath == if NamesScript(arg) then arg.value else "";
      ghost var loaded := Load(storage.settingsFile, storage.layoutSizes);
      LoadSettings(storage);
      assert Settings(keyboardLayout, iface) == loaded;
      if usb.locked {
        error := Some(CloseRpc);
        usbPrev := None;
        scenes := scenes + [Error];
      } else {
        usbPrev := usb.config;
        usb.SetConfig(None);
        calls := calls + [UsbSetConfig(None)];
        if filePath != "" {
          assert NamesScript(arg);
          scenes := scenes + [Work];
        } else {
          filePath := BaseFolder;
          scenes := scenes + [FileSelect];
        }
      }
    }

    /**
     * bad_usb_load_settings: accept the stored record only if every step of
     * the chain succeeds, then keep the stored layout only if stat reports a
     * file of the layout size.
     */
    method LoadSettings(storage: Storage)
      modifies this`keyboardLayout, this`iface
      ensures Settings(keyboardLayout, iface) == Load(storage.settingsFile, storage.layoutSizes)
    {
      var state := false;
      var temp := "";
      var interfaceId: u32 := 0;
      ghost var parsed := ParseRecord(storage.settingsFile);
      if storage.settingsFile.Some? {
        var file := storage.settingsFile.value;
        label chain: {
          var header := ReadHeader(file, 0);
          if header.None? { assert parsed == None; break chain; }
          temp := header.value.value.0;
          if temp != FileType || header.value.value.1 != Version { assert parsed == None; break chain; }
          var layout := ReadString(file, header.value.next, LayoutKey);
          if layout.None? { assert parsed == None; break chain; }
          temp := layout.value.value;
          var id := ReadUint32(file, layout.value.next, InterfaceKey);
          if id.None? { assert parsed == None; break chain; }
          interfaceId := id.value.value;
          if interfaceId > Ble.Id() { assert parsed == None; break chain; }
          assert parsed == Some(Settings(temp, if interfaceId == Usb.Id() then Usb else Ble));
          state := true;
        }
      }
      if state {
        keyboardLayout := temp;
        iface := if interfaceId == Usb.Id() then Usb else Ble;
        var sizes := storage.layoutSizes;
        if keyboardLayout !in sizes || sizes[keyboardLayout] != LayoutSize {
          keyboardLayout := DefaultLayout;
        }
      } else {
        keyboardLayout := DefaultLayout;
        iface := Usb;
      }
    }

    /**
     * bad_usb_save_settings: open the file for writing, then write the header,
     * the layout and the interface, stopping at the first failed write.
     */
    method SaveSettings(storage: Storage, faults: WriteFaults)
      modifies storage`settingsFile, this`calls
      ensures storage.settingsFile == Saved(old(storage.settingsFile), Settings(keyboardLayout, iface), faults)
      ensures calls == old(calls) + [SettingsSave]
    {
      ghost var record := Record(Settings(keyboardLayout, iface));
      var ok := storage.OpenAlways(faults);
      if ok {
        label chain: {
          ok := storage.Write(HeaderEntries(FileType, Version), faults, 0);
          if !ok { break chain; }
          assert storage.settingsFile.value == record[..2];
          ok := storage.Write([Entry(LayoutKey, Text(keyboardLayout))], faults, 1);
          if !ok { break chain; }
          assert storage.settingsFile.value == record[..3];
          var interfaceId := iface.Id();
          ok := storage.Write([Entry(InterfaceKey, Number(interfaceId))], faults, 2);
          assert ok ==> storage.settingsFile.value == record[..4];
        }
      }
      calls := calls + [SettingsSave];
    }

    /**
     * bad_usb_app_free: close an open script, save the settings once, and as
     * the last step restore the captured USB interface, if there is one.
     */
    method Free(storage: Storage, usb: UsbHal, faults: WriteFaults)
      requires usbPrev.Some? ==> !usb.locked
      modifies this`script, this`calls, storage`settingsFile, usb`config
      ensures script == None
      ensures calls == old(calls) + TeardownCalls(old(script), usbPrev)
      ensures storage.settingsFile == Saved(old(storage.settingsFile), Settings(keyboardLayout, iface), faults)
      ensures usb.config == if usbPrev.Some? then usbPrev else old(usb.config)
    {
      if script.Some? {
        calls := calls + [ScriptClose(script.value)];
        script := None;
      }
      SaveSettings(storage, faults);
      if usbPrev.Some? {
        usb.SetConfig(usbPrev);
        calls := calls + [UsbSetConfig(usbPrev)];
      }
    }
  }

  /**
   * bad_usb_app: construct, run, tear down. Whatever the lock state and the
   * argument, the active USB interface ends as it began, the settings are saved
   * exactly once, and what is saved is what was loaded.
   */
  method Run(arg: Option<string>, storage: Storage, usb: UsbHal, faults: WriteFaults)
    returns (status: int, ghost calls: seq<Call>)
    modifies storage`settingsFile, usb`config
    ensures status == 0
    ensures usb.config == old(usb.config)
    ensures storage.settingsFile == Saved(old(storage.settingsFile), Load(old(storage.settingsFile), storage.layoutSizes), faults)
    ensures calls == StartupCalls(usb.locked) + TeardownCalls(None, if usb.locked then None else old(usb.config))
  {
    var app := new App(arg, storage, usb);
    // the view dispatcher's event loop runs here; it is not modelled
    app.Free(storage, usb, faults);
    calls := app.calls;
    status := 0;
  }
}
