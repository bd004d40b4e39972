# BadUSB application shell: settings codec and lifecycle

This project models the lifecycle shell of the Flipper Zero BadUSB application,
`applications/main/bad_usb/bad_usb_app.c`. It covers two pieces of decision logic:

- **Settings load and save.** The settings file is a FlipperFormat record with the
  file type `Flipper BadUSB Settings File`, version `1`, a `layout` string and an
  `interface` number (0 = USB, 1 = BLE). Load accepts the record only when every
  step of its validation chain succeeds. Otherwise it falls back to the default
  layout (`en-US.kl` in the layout folder) and the USB interface. An accepted
  layout is then kept only if stat reports a file of exactly 256 bytes; the loaded
  interface is kept either way. Save opens the file (create or truncate) and
  writes the header, the layout and the interface, stopping at the first failed write.
- **Construction and teardown.** Construction takes a non-empty entry argument as
  the script path and loads the settings. If USB is locked by a remote session,
  it records the `CloseRpc` error, captures nothing and starts in the Error scene.
  Otherwise it captures the active USB configuration, switches USB off, and starts
  in the Work scene (a script was named) or in the file browser at the base folder.
  Teardown closes an open script, saves the settings exactly once, and, as its last
  step, restores the captured USB interface if there is one.

Layout of the project:

- `wrappers.dfy` (module `Wrappers`): `Option`, the stand-in for a NULL pointer or a failed read.
- `flipper_format.dfy` (module `FlipperFormat`): the FlipperFormat library as the
  settings code uses it. A file is an ordered list of key/value entries. A read
  finds the first entry with its key at or after the reader's cursor. A write
  appends entries.
- `settings_codec.dfy` (module `SettingsCodec`): the constants and the specification
  functions of load (`ParseRecord`, `Load`) and save (`Record`, `Saved`). Also the
  lemmas that connect them: the round trip, rejection of truncated records, and the
  fixed point of save-then-load.
- `bad_usb_app.dfy` (module `BadUsb`): classes `Storage` (the settings file and
  what stat reports), `UsbHal` (the global USB state: lock flag and active
  configuration) and `App` (the `BadUsbApp` fields). `App` has the imperative
  load, save, construction and teardown, each proved against the specification
  functions. A ghost log `calls` records the calls into other subsystems in order.
  The method `Run` is the application entry point.

The storage, the stat result, the USB lock flag, the active USB interface and
the outcome of each file operation are inputs. The storage and the USB layer are
objects, and the methods state how they change.

## Model

| member | source | states |
|---|---|---|
| `FlipperFormat.ReadHeader` | applications/main/bad_usb/bad_usb_app.c:83 | a header read takes the first `Filetype` entry after the cursor and the first `Version` entry after that; it succeeds exactly when they hold a string and a number, returns those two values with the cursor past the `Version` entry, and fails when no `Filetype` entry follows the cursor |
| `FlipperFormat.ReadString` | applications/main/bad_usb/bad_usb_app.c:88 | reading `layout` takes the first entry with that key at or after the cursor: it returns that entry's string and the cursor past it exactly when the entry holds a string, and fails when no such key follows |
| `FlipperFormat.ReadUint32` | applications/main/bad_usb/bad_usb_app.c:89 | reading `interface` takes the first entry with that key at or after the cursor: it returns that entry's number and the cursor past it exactly when the entry holds a number, and fails when no such key follows |
| `FlipperFormat.FirstFromMeans` | applications/main/bad_usb/bad_usb_app.c:83-89 | the position a read stops at is exactly the first entry with the key at or after the cursor: at or after it, inside the file, with the key, and no entry with the key between the cursor and it |
| `FlipperFormat.HeaderEntries` | applications/main/bad_usb/bad_usb_app.c:134-135 | the header that save writes reads back as the same file type and version |
| `SettingsCodec.InterfaceFromId` | applications/main/bad_usb/bad_usb_app.c:90 | a stored interface number is accepted if and only if it is at most the BLE identifier, and then it maps back to the same number |
| `SettingsCodec.ParseRecord` | applications/main/bad_usb/bad_usb_app.c:81-93 | a record is accepted only from a file that exists and holds the exact file type, version 1, the returned layout string and the returned interface number; with `EntriesFound`, the layout is that of the first `layout` entry after the `Version` entry and the interface that of the first `interface` entry after it, whatever other entries with those keys the file holds |
| `SettingsCodec.Load` | applications/main/bad_usb/bad_usb_app.c:98-113 | a rejected record yields exactly the defaults; an accepted record keeps its interface; the layout is the default or the stored layout, and a stored layout only when stat reports exactly 256 bytes |
| `SettingsCodec.Record` | applications/main/bad_usb/bad_usb_app.c:134-140 | a complete save writes exactly four entries |
| `SettingsCodec.Saved` | applications/main/bad_usb/bad_usb_app.c:132-141 | a file that does not open is left as it was; otherwise it holds the prefix of the record written by the calls that succeeded before the first failure (two header entries, then the layout, then the interface), and the whole record if and only if all three write calls succeed |
| `SettingsCodec.RecordRoundTrip` | applications/main/bad_usb/bad_usb_app.c:128-141 | the record save writes is accepted by load's validation chain with the same layout and interface |
| `SettingsCodec.TruncatedRecordRejected` | applications/main/bad_usb/bad_usb_app.c:133-141 | every proper prefix of the record is rejected by load |
| `SettingsCodec.LoadAfterSave` | applications/main/bad_usb/bad_usb_app.c:98-109 | load after a complete save returns the saved settings if and only if their layout passes the stat check or is the default |
| `SettingsCodec.SaveLoadFixedPoint` | applications/main/bad_usb/bad_usb_app.c:128-146 | saving the settings load produced, with every write succeeding, and loading again gives the same settings |
| `SettingsCodec.FailedSaveLoadsDefaults` | applications/main/bad_usb/bad_usb_app.c:133-141 | after a save whose writes stop early, the next load yields the defaults; this holds under whole-entry writes, where a failed write call appends nothing (see `Storage.Write` under Left out) |
| `SettingsCodec.LoadRejectsMalformed` | applications/main/bad_usb/bad_usb_app.c:81-93 | a missing file, a file without the expected file type or version, one without a layout string, or one without an interface number in range loads as exactly the defaults |
| `SettingsCodec.EntriesFound` | applications/main/bad_usb/bad_usb_app.c:83-90 | when the first `Filetype` entry holds the file type, the first `Version` after it holds 1, the first `layout` after that a string and the first `interface` after that a number of at most 1, the record is accepted with exactly that layout and that interface |
| `SettingsCodec.ParseRecordRejectsExactly` | applications/main/bad_usb/bad_usb_app.c:81-93 | the validation chain rejects a file if and only if it is missing, or the first `Filetype` entry is not the expected type, or the first `Version` entry after it is not 1, or the first `layout` entry after that is not a string, or the first `interface` entry after that is not a number of at most 1; a correct entry later in the file does not rescue it |
| `BadUsb.Storage.OpenAlways` | applications/main/bad_usb/bad_usb_app.c:132 | opening for writing truncates the settings file when it succeeds and leaves it alone when it fails |
| `BadUsb.Storage.Write` | applications/main/bad_usb/bad_usb_app.c:134-140 | a successful write call appends its entries; a failed one appends nothing |
| `BadUsb.UsbHal.SetConfig` | applications/main/bad_usb/bad_usb_app.c:214 | setting the USB interface is only allowed while USB is unlocked (furi_check) and makes it the active one |
| `BadUsb.App.LoadSettings` | applications/main/bad_usb/bad_usb_app.c:72-116 | the do-while chain and the stat check leave exactly `Load` of the settings file and the stat results in `keyboard_layout` and `interface` |
| `BadUsb.App.SaveSettings` | applications/main/bad_usb/bad_usb_app.c:128-146 | the settings file becomes `Saved` of the app's layout and interface, and one save is logged |
| `BadUsb.App.constructor` | applications/main/bad_usb/bad_usb_app.c:161-225 | no open script; the settings are `Load`ed; locked USB gives `CloseRpc`, no captured configuration, the Error scene and no USB call; unlocked USB captures the active configuration, switches USB off once, and starts in Work with `file_path` = argument, or in FileSelect at the base folder |
| `BadUsb.App.Free` | applications/main/bad_usb/bad_usb_app.c:236-280 | closes an open script and clears it, saves once, and restores the captured USB interface last, only if one was captured; nothing else changes |
| `BadUsb.TeardownOrder` | applications/main/bad_usb/bad_usb_app.c:240-279 | teardown saves exactly once, closes a script first, and its last call is the USB restore exactly when a configuration was captured |
| `BadUsb.LifecycleCalls` | applications/main/bad_usb/bad_usb_app.c:208-222 | over construction and teardown: one save; no USB call when locked; otherwise USB is switched off first and a captured configuration is restored last |
| `BadUsb.Run` | applications/main/bad_usb/bad_usb_app.c:291-303 | the application returns 0, the active USB interface ends as it began, and the settings file ends as `Saved` of what was loaded |

## Left out

- The GUI, notification and dialog records, the view dispatcher, the widget, the variable item list and the BadUSB view. Their allocation, attachment and removal (lines 174-206 and 246-264) have no behaviour beyond pairing.
- The three event callbacks (lines 24-60) forward to the scene manager, whose implementation is not part of this model. The 500-tick period is left out too.
- The event loop `view_dispatcher_run` (line 296) is a blocking run loop. `Run` goes straight from construction to teardown. So scene changes, script opening and settings edits during the run are not modelled.
- The script engine is not part of this model. Closing a script is a logged call; no scene of this file opens one. `App.script` is a public field that such a scene would set.
- The scene manager is reduced to the list of scenes entered. The Config scene exists but no code in this file enters it.
- `furi_record_open`/`furi_record_close`, `malloc`/`free` and `furi_string_alloc`/`furi_string_free` are left out.
- `UsbHal.SetConfig`: the context argument of `furi_hal_usb_set_config` is not modelled. Both calls in this file pass NULL for it (lines 214 and 275), and only the interface is captured (line 213), so teardown restores the previous interface and not a context it may have had.
- `furi_assert(app)` and `furi_assert(context)` are left out. `furi_check` around `furi_hal_usb_set_config` is the precondition `!locked` of `UsbHal.SetConfig`. `App.Free` carries it as a precondition for the restore.
- The FlipperFormat library is not part of this model. Values are typed (string or number), and the model does not parse text. A string read of a numeric entry fails in the model, where the library would return the number's text. Comments and blank lines are not modelled.
- `Storage.Write`: a failed write call appends nothing. A partially written line is not modelled, so `FailedSaveLoadsDefaults` holds only under whole-entry writes.
- `storage_common_stat` is a map from path to size: a path in the map stats successfully with that size, and any other path is a stat error. The settings file and the layout files are kept apart.
- `BAD_USB_APP_BASE_FOLDER` and `BAD_USB_APP_PATH_LAYOUT_FOLDER` come from `bad_usb_app_i.h`, which is not part of this model. The model uses `/ext/badusb` and `/ext/badusb/assets/layouts`. No property depends on these values.
- `app->error` is left unset in the unlocked path. The model makes it an `Option` that is `None` there. Only the error code this file sets, `CloseRpc`, is modelled.
- The entry argument is `Option<string>` (None for NULL). `strlen` is the sequence length, so embedded NUL characters are not modelled.
