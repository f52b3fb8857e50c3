/**
 The state `ClipboardEx` keeps outside its widgets: the list of recorded
 clipboard texts (`recordList`, oldest first, each record reduced to its
 text) and the settings dictionary (`appSettingsDict`). Each method updates
 these fields in place as the Python method does and is proved against the
 value-level definitions of the History and Settings modules.
 */
module Clipboard {
  import opened Values
  import opened Settings
  import opened History

  /** What the settings dialog hands back: rejected, or accepted with the number of records it holds
      and the check state `startMin`, which exists only if the check box was toggled. */
  datatype DialogResult = Rejected | Accepted(numberOfRecords: Json, startMin: Option<Json>)

  class ClipboardApp {
    var records: seq<string>
    var settings: map<string, Json>

    /** The settings always hold exactly the two known keys. */
    predicate Valid()
      reads this
    {
      settings.Keys == DEFAULTS.Keys
    }

    /** `__init__` without the widgets: defaults first, an empty history. */
    constructor ()
      ensures Valid()
      ensures settings == DEFAULTS && records == []
    {
      settings := DEFAULTS;
      records := [];
    }

    /** `write_settings`: the document handed to the file writer, which reads back as the same settings. */
    method WriteSettings() returns (doc: Json)
      ensures doc == Serialize(settings)
      ensures Load(settings, Parsed(doc)) == Success(Loaded(settings, None))
    {
      doc := JObject(settings);
      LoadSerializeRoundTrip(settings, settings);
    }

    /** `read_settings`: merge the decoded file into the settings key by key, or keep them and
        rewrite the file when it is missing or undecodable. `r` is the document written, if any. */
    method ReadSettings(file: ConfigFile) returns (r: Result<Option<Json>, Fault>)
      requires Valid()
      modifies this`settings
      ensures Valid()
      ensures Load(old(settings), file).Success? ==>
        settings == Load(old(settings), file).value.settings && r == Success(Load(old(settings), file).value.written)
      ensures Load(old(settings), file).Failure? ==>
        settings == old(settings) && r == Failure(Load(old(settings), file).error)
    {
      match file
      case Unreadable =>
        r := Failure(ConfigUnreadable);
      case Missing =>
        var doc := WriteSettings();
        r := Success(Some(doc));
      case Undecodable =>
        var doc := WriteSettings();
        r := Success(Some(doc));
      case Parsed(data) =>
        var pending := settings.Keys;
        while pending != {}
          invariant pending <= settings.Keys == old(settings).Keys
          invariant forall k :: k in settings ==>
            settings[k] == if k in pending then old(settings)[k] else Merge(old(settings), data)[k]
          decreases pending
        {
          var key :| key in pending;
          match Lookup(data, key) {
            case Some(v) => settings := settings[key := v];
            case None =>
          }
          pending := pending - {key};
        }
        assert settings == Merge(old(settings), data);
        r := Success(None);
    }

    /** `adjust_settings`: on acceptance the number of records is stored first; a missing `startMin`
        then raises before anything is written. The history is not trimmed. */
    method AdjustSettings(dialog: DialogResult) returns (r: Result<Option<Json>, Fault>)
      requires Valid()
      modifies this`settings
      ensures Valid() && records == old(records)
      ensures dialog.Rejected? ==> settings == old(settings) && r == Success(None)
      ensures dialog.Accepted? && dialog.startMin.None? ==>
        settings == old(settings)[MAX_RECORDS_KEY := dialog.numberOfRecords] && r == Failure(NoStartMinimizedChoice)
      ensures dialog.Accepted? && dialog.startMin.Some? ==>
        settings == old(settings)[MAX_RECORDS_KEY := dialog.numberOfRecords][START_MINIMIZED_KEY := dialog.startMin.value]
        && r == Success(Some(Serialize(settings)))
    {
      match dialog
      case Rejected =>
        r := Success(None);
      case Accepted(n, startMin) =>
        settings := settings[MAX_RECORDS_KEY := n];
        if startMin.None? {
          r := Failure(NoStartMinimizedChoice);
          return;
        }
        settings := settings[START_MINIMIZED_KEY := startMin.value];
        var doc := WriteSettings();
        r := Success(Some(doc));
    }

    /** `clear_app_memory`: drain the history from the front; `removed` lists the records taken off
        the display, in the order they were removed. */
    method ClearAppMemory() returns (removed: seq<string>)
      requires Valid()
      modifies this`records
      ensures Valid()
      ensures records == [] && removed == old(records)
    {
      removed := [];
      while |records| > 0
        invariant removed + records == old(records)
        decreases |records|
      {
        removed := removed + [records[0]];
        records := records[1..];
      }
    }

    /** `copy_from_clipboard`: record a non-empty text, evicting the oldest record first when the
        length equals the capacity setting. `r` holds the evicted record, if any. */
    method CopyFromClipboard(payload: Payload) returns (r: Result<Option<string>, Fault>)
      requires Valid()
      modifies this`records
      ensures Valid()
      ensures Capture(old(records), settings[MAX_RECORDS_KEY], payload).Success? ==>
        records == Capture(old(records), settings[MAX_RECORDS_KEY], payload).value.records
        && r == Success(Capture(old(records), settings[MAX_RECORDS_KEY], payload).value.evicted)
      ensures Capture(old(records), settings[MAX_RECORDS_KEY], payload).Failure? ==>
        records == old(records) && r == Failure(PopFromEmptyList)
    {
      var evicted: Option<string> := None;
      if payload.Text? && payload.text != "" {
        if PyIntEquals(|records|, settings[MAX_RECORDS_KEY]) {
          if records == [] {
            return Failure(PopFromEmptyList);
          }
          evicted := Some(records[0]);
          records := records[1..];
        }
        records := records + [payload.text];
      }
      r := Success(evicted);
    }
  }

  /** `__init__` without the widgets: the defaults are set, `read_settings` merges the settings file
      into them, and the history starts empty. An exception from the read escapes `__init__`. */
  method StartUp(file: ConfigFile) returns (app: ClipboardApp, r: Result<Option<Json>, Fault>)
    ensures fresh(app) && app.Valid() && app.records == []
    ensures Load(DEFAULTS, file).Success? ==>
      app.settings == Load(DEFAULTS, file).value.settings && r == Success(Load(DEFAULTS, file).value.written)
    ensures Load(DEFAULTS, file).Failure? ==> r == Failure(ConfigUnreadable)
  {
    app := new ClipboardApp();
    r := app.ReadSettings(file);
  }

  /** A client session: with capacity 2, payloads without text are ignored, a third text evicts
      the oldest, clearing empties the history, and a second clear removes nothing. */
  method EvictionSession()
  {
    var app := new ClipboardApp();
    var w := app.AdjustSettings(Accepted(JInt(2), Some(JInt(CHECKED))));
    var e := app.CopyFromClipboard(Text("1"));
    e := app.CopyFromClipboard(NoText);
    e := app.CopyFromClipboard(Text(""));
    e := app.CopyFromClipboard(Text("2"));
    assert app.records == ["1", "2"];
    e := app.CopyFromClipboard(Text("3"));
    assert e == Success(Some("1")) && app.records == ["2", "3"];
    var removed := app.ClearAppMemory();
    assert removed == ["2", "3"] && app.records == [];
    removed := app.ClearAppMemory();
    assert removed == [];
  }

  /** A client session: lowering the capacity below the history's length trims nothing, and the
      next copy makes the history longer than the new capacity. */
  method LoweredCapacitySession()
  {
    var app := new ClipboardApp();
    var e := app.CopyFromClipboard(Text("a"));
    e := app.CopyFromClipboard(Text("b"));
    e := app.CopyFromClipboard(Text("c"));
    var w := app.AdjustSettings(Accepted(JInt(2), Some(JInt(UNCHECKED))));
    assert app.records == ["a", "b", "c"];
    e := app.CopyFromClipboard(Text("d"));
    assert e == Success(None) && app.records == ["a", "b", "c", "d"];
  }
}
