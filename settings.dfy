/**
 The settings store of `ClipboardEx`: the defaults table, the per-key merge
 that `read_settings` performs on a decoded settings file, and the document
 `write_settings` serialises. The file system and the JSON text format are
 not modelled: a read is given as its outcome (`ConfigFile`), a write as the
 decoded document handed to the writer.
 */
module Settings {
  import opened Values

  const MAX_RECORDS_KEY: string := "maxNrOfRecords"
  const START_MINIMIZED_KEY: string := "startMinimized"

  /** Qt.Unchecked and Qt.Checked, as the integers JSON stores for them. */
  const UNCHECKED: int := 0
  const CHECKED: int := 2

  /** The settings every session starts from. */
  const DEFAULTS: map<string, Json> :=
    map[MAX_RECORDS_KEY := JInt(5), START_MINIMIZED_KEY := JInt(CHECKED)]

  /** The outcome of opening the settings file and calling `json.load` on it. */
  datatype ConfigFile =
    | Missing            // FileNotFoundError
    | Undecodable        // json.decoder.JSONDecodeError
    | Unreadable         // any other error from open or decoding: it propagates
    | Parsed(data: Json)

  /** The settings after a load, and the document written back, if any. */
  datatype Loaded = Loaded(settings: map<string, Json>, written: Option<Json>)

  /** `data[key]`: a value only when `data` is a dict holding `key`; every other case raises
      (KeyError, or TypeError for a list, string, number or null) and reads as `None`. */
  function Lookup(data: Json, key: string): (r: Option<Json>)
    ensures r.Some? <==> data.JObject? && key in data.fields
  {
    if data.JObject? && key in data.fields then Some(data.fields[key]) else None
  }

  /** The settings after the `for key in appSettingsDict` loop of `read_settings`. */
  function Merge(current: map<string, Json>, data: Json): (r: map<string, Json>)
    ensures r.Keys == current.Keys
  {
    map k | k in current :: Lookup(data, k).GetOr(current[k])
  }

  /** The document `json.dumps(appSettingsDict)` encodes. */
  function Serialize(settings: map<string, Json>): (r: Json)
    ensures forall k :: Lookup(r, k) == if k in settings then Some(settings[k]) else None
  {
    JObject(settings)
  }

  /** `read_settings` applied to the settings `current`. */
  function Load(current: map<string, Json>, file: ConfigFile): (r: Result<Loaded, Fault>)
    ensures r.Failure? <==> file == Unreadable
    ensures r.Failure? ==> r.error == ConfigUnreadable
    ensures r.Success? ==> r.value.settings.Keys == current.Keys
    ensures r.Success? ==> (r.value.written.Some? <==> file == Missing || file == Undecodable)
    ensures r.Success? && r.value.written.Some? ==> r.value.settings == current && r.value.written == Some(Serialize(current))
  {
    match file
    case Missing => Success(Loaded(current, Some(Serialize(current))))
    case Undecodable => Success(Loaded(current, Some(Serialize(current))))
    case Unreadable => Failure(ConfigUnreadable)
    case Parsed(data) => Success(Loaded(Merge(current, data), None))
  }

  /** A decoded mapping yields exactly the known keys; each takes the file's value when the file
      has it, unclamped, and keeps its current value otherwise; unknown keys are dropped. */
  lemma LoadParsedMapping(current: map<string, Json>, fields: map<string, Json>)
    ensures Load(current, Parsed(JObject(fields))).Success?
    ensures Load(current, Parsed(JObject(fields))).value.written == None
    ensures Load(current, Parsed(JObject(fields))).value.settings.Keys == current.Keys
    ensures forall k :: k in current ==>
      Load(current, Parsed(JObject(fields))).value.settings[k] ==
        if k in fields then fields[k] else current[k]
  {
  }

  /** A missing or undecodable file keeps the current settings and writes them out. */
  lemma LoadFallsBack(current: map<string, Json>, file: ConfigFile)
    requires file == Missing || file == Undecodable
    ensures Load(current, file) == Success(Loaded(current, Some(JObject(current))))
  {
  }

  /** A decoded value that is not a mapping fails every lookup: nothing changes and nothing is written. */
  lemma LoadIgnoresNonMapping(current: map<string, Json>, data: Json)
    requires !data.JObject?
    ensures Load(current, Parsed(data)) == Success(Loaded(current, None))
  {
    var merged := Merge(current, data);
    assert forall k :: k in merged ==> merged[k] == current[k];
    assert merged == current;
  }

  /** Loading exactly what `write_settings` wrote gives back the same settings, without a rewrite. */
  lemma LoadSerializeRoundTrip(current: map<string, Json>, settings: map<string, Json>)
    requires settings.Keys == current.Keys
    ensures Load(current, Parsed(Serialize(settings))) == Success(Loaded(settings, None))
  {
    var merged := Merge(current, Serialize(settings));
    assert forall k :: k in merged ==> merged[k] == settings[k];
    assert merged == settings;
  }

  /** Merging the same document twice is merging it once. */
  lemma MergeIdempotent(current: map<string, Json>, data: Json)
    ensures Merge(Merge(current, data), data) == Merge(current, data)
  {
  }

  /** First start without a file: the defaults are written, and the next start reads them back. */
  lemma DefaultsPersist()
    ensures Load(DEFAULTS, Missing) == Success(Loaded(DEFAULTS, Some(Serialize(DEFAULTS))))
    ensures Load(DEFAULTS, Parsed(Serialize(DEFAULTS))) == Success(Loaded(DEFAULTS, None))
  {
    LoadSerializeRoundTrip(DEFAULTS, DEFAULTS);
  }

  /** `{"maxNrOfRecords": 99}` is kept as 99: the store does not clamp. */
  lemma LoadKeepsOutOfRangeCapacity()
    ensures Load(DEFAULTS, Parsed(JObject(map[MAX_RECORDS_KEY := JInt(99)])))
         == Success(Loaded(map[MAX_RECORDS_KEY := JInt(99), START_MINIMIZED_KEY := JInt(CHECKED)], None))
  {
    var fields := map[MAX_RECORDS_KEY := JInt(99)];
    var merged := Merge(DEFAULTS, JObject(fields));
    assert START_MINIMIZED_KEY !in fields;
    assert merged[MAX_RECORDS_KEY] == JInt(99);
    assert merged[START_MINIMIZED_KEY] == JInt(CHECKED);
    assert merged == map[MAX_RECORDS_KEY := JInt(99), START_MINIMIZED_KEY := JInt(CHECKED)];
  }
}
