/** The two YAML documents the plugin keeps on disk (its config and its
    player memory) and the loading rules of `loadConfigs`, `loadConfig` and
    `loadPlayers`. A file is modelled by what a YAML load of it yields;
    writing a map and loading it again gives back that map. */
module Persistence {

  datatype Option<T> = None | Some(value: T)

  /** A scalar stored in the config document. */
  datatype Value = BoolValue(b: bool) | IntValue(i: int) | TextValue(text: string)

  /** The state of one backing file:
      Missing  -- the file does not exist;
      Blank    -- the file exists but holds no YAML document (a load yields null);
      Saved(m) -- the file holds the dump of the map m. */
  datatype Document<T> = Missing | Blank | Saved(data: T)

  /** What `loadConfigs` hands back (None is Java's null) and the file afterwards. */
  datatype Read<K, V> = Read(result: Option<map<K, V>>, file: Document<map<K, V>>)

  /** A map loaded into memory, and the file afterwards. */
  datatype Loaded<K, V> = Loaded(data: map<K, V>, file: Document<map<K, V>>)

  const ENABLED_KEY: string := "enabled"
  const TIME_LIMIT_KEY: string := "time-limit"
  const DEFAULT_TIME_LIMIT: int := 20

  /** The document `loadConfig` writes when it finds a null config. */
  function DefaultConfig(): (c: map<string, Value>)
    ensures c.Keys == {ENABLED_KEY, TIME_LIMIT_KEY}
    ensures c[ENABLED_KEY] == BoolValue(true) && c[TIME_LIMIT_KEY] == IntValue(DEFAULT_TIME_LIMIT)
  {
    map[ENABLED_KEY := BoolValue(true), TIME_LIMIT_KEY := IntValue(DEFAULT_TIME_LIMIT)]
  }

  /** `loadConfigs`: a missing file is created empty and read as an empty
      map; an existing file is parsed, and an empty one parses to null. */
  function LoadConfigs<K, V>(f: Document<map<K, V>>): (r: Read<K, V>)
    ensures r.file != Missing
    ensures f != Missing ==> r.file == f
    ensures r.result == None <==> f == Blank
    ensures f.Saved? ==> r.result == Some(f.data) && r.file == f
    ensures f == Missing ==> r.result == Some(map[]) && r.file == Blank
  {
    match f
    case Missing => Read(Some(map[]), Blank)
    case Blank => Read(None, Blank)
    case Saved(m) => Read(Some(m), f)
  }

  /** `loadConfig`: a null load is replaced by the defaults, which are then
      saved; a missing file gives an empty config and no defaults. */
  function LoadConfig(f: Document<map<string, Value>>): (r: Loaded<string, Value>)
    ensures r.file == Saved(r.data) || (r.file == Blank && r.data == map[])
    ensures f.Saved? ==> r.data == f.data && r.file == f
    ensures f == Blank ==> r.data == DefaultConfig()
    ensures f == Missing ==> r.data == map[] && r.file == Blank
  {
    var read := LoadConfigs(f);
    match read.result
    case None => Loaded(DefaultConfig(), Saved(DefaultConfig()))
    case Some(m) => Loaded(m, read.file)
  }

  /** Starting from any file, the second load already reads what every
      later load reads: a missing file needs two starts to get its defaults. */
  lemma LoadConfigSettles(f: Document<map<string, Value>>)
    ensures var second := LoadConfig(LoadConfig(f).file);
            LoadConfig(second.file) == second
    ensures f == Missing ==> LoadConfig(LoadConfig(f).file).data == DefaultConfig()
  {
  }

  /** `loadPlayers` exactly as written: the result of `loadConfigs`,
      which is null for a blank file. */
  function LoadPlayersAsWritten<K, V>(f: Document<map<K, V>>): (r: Read<K, V>)
    ensures r.result == None <==> f == Blank
    ensures r.file != Missing
    ensures f != Missing ==> r.file == f
  {
    LoadConfigs(f)
  }

  /** `loadPlayers` with the missing null check added: a blank file gives an
      empty player memory, as a missing one does. */
  function LoadPlayers<K, V>(f: Document<map<K, V>>): (r: Loaded<K, V>)
    ensures r.file == Blank || r.file == Saved(r.data)
    ensures f.Saved? ==> r.data == f.data && r.file == f
    ensures !f.Saved? ==> r.data == map[]
    ensures f != Missing ==> r.file == f
    ensures f == Missing ==> r.file == Blank
  {
    var read := LoadConfigs(f);
    match read.result
    case None => Loaded(map[], read.file)
    case Some(m) => Loaded(m, read.file)
  }

  /** Reading the player memory again after a load reads the same memory:
      what is in memory after startup is what the file holds. */
  lemma LoadPlayersIsStable<K, V>(f: Document<map<K, V>>)
    ensures LoadPlayers(LoadPlayers(f).file) == LoadPlayers(f)
  {
  }
}
