/**
 * The configuration store of settings_manager.py.
 *
 * A configuration is a JSON object whose top-level keys are sections
 * ("break_timer", "posture", ...) that normally hold objects of settings.
 * The bundled defaults file and the user's override file are passed in as
 * their parsed contents (or the way reading them failed); the user file is
 * also state of the manager, because `save` writes it and a later load
 * reads it back.
 */
module Settings {

  /** A JSON value as the configuration files use it. */
  datatype Value = B(b: bool) | I(i: int) | S(s: string) | D(m: map<string, Value>)

  /** A JSON object: the whole configuration, or one section of it. */
  type Config = map<string, Value>

  /** The exceptions Python raises when a section holds something other than an object. */
  datatype Error = TypeError | ValueError

  datatype Result<+T> = Ok(value: T) | Err(error: Error)

  // ------------------------------------------------------------------
  // Reads and writes of one entry
  // ------------------------------------------------------------------

  /**
   * `get(section, key, fallback)`: `config[section][key]` when both levels
   * exist, the fallback when the section or the key is missing.  Only the
   * KeyError is caught: subscripting a section that holds a scalar raises
   * TypeError.
   */
  function Get(cfg: Config, section: string, key: string, fallback: Value): (r: Result<Value>)
    ensures r.Ok? <==> section !in cfg || cfg[section].D?
    ensures r.Err? ==> r.error == TypeError
    ensures section !in cfg ==> r == Ok(fallback)
    ensures section in cfg && cfg[section].D? ==>
      r == Ok(if key in cfg[section].m then cfg[section].m[key] else fallback)
  {
    if section !in cfg then Ok(fallback)
    else match cfg[section]
      case D(m) => Ok(if key in m then m[key] else fallback)
      case _ => Err(TypeError)
  }

  /** `config[section]` can be subscripted: the section is missing or an object. */
  predicate Readable(cfg: Config, section: string) {
    section !in cfg || cfg[section].D?
  }

  /** `get(section, key, fallback)` on a section it can subscript, where it cannot raise. */
  function Lookup(cfg: Config, section: string, key: string, fallback: Value): (v: Value)
    requires Readable(cfg, section)
    ensures Get(cfg, section, key, fallback) == Ok(v)
  {
    Get(cfg, section, key, fallback).value
  }

  /**
   * `set(section, key, value)` on the in-memory configuration: a missing
   * section is created empty first; a section holding a scalar raises
   * TypeError and nothing changes.  Afterwards `get` of that entry yields
   * the value and every other `get` is as before.
   */
  function SetEntry(cfg: Config, section: string, key: string, value: Value): (r: Result<Config>)
    ensures r.Ok? <==> section !in cfg || cfg[section].D?
    ensures r.Err? ==> r.error == TypeError
    ensures r.Ok? ==> r.value.Keys == cfg.Keys + {section}
    ensures r.Ok? ==> forall s :: s in cfg && s != section ==> r.value[s] == cfg[s]
    ensures r.Ok? ==> forall s, k, fallback ::
      Get(r.value, s, k, fallback) == if s == section && k == key then Ok(value) else Get(cfg, s, k, fallback)
  {
    if section !in cfg then Ok(cfg[section := D(map[key := value])])
    else match cfg[section]
      case D(m) => Ok(cfg[section := D(m[key := value])])
      case _ => Err(TypeError)
  }

  /**
   * `get_section(section)`: `dict(config.get(section, {}))`, a copy of the
   * section's entries.  A missing section gives an empty map; so does the
   * empty string, which `dict` accepts as an empty sequence of pairs.  Any
   * other string raises ValueError, a bool or int raises TypeError.
   */
  function GetSection(cfg: Config, section: string): (r: Result<Config>)
    ensures section !in cfg ==> r == Ok(map[])
    ensures section in cfg && cfg[section] == S("") ==> r == Ok(map[])
    ensures r.Err? <==> section in cfg && !cfg[section].D? && cfg[section] != S("")
    ensures r.Err? ==> r.error == (if cfg[section].S? then ValueError else TypeError)
    ensures r.Ok? && !(section in cfg && cfg[section].S?) ==>
      forall k, fallback :: Get(cfg, section, k, fallback) == Ok(if k in r.value then r.value[k] else fallback)
  {
    if section !in cfg then Ok(map[])
    else match cfg[section]
      case D(m) => Ok(m)
      case S(s) => if s == "" then Ok(map[]) else Err(ValueError)
      case _ => Err(TypeError)
  }

  // ------------------------------------------------------------------
  // Decimal digits, as stored settings may hold numbers as text
  // ------------------------------------------------------------------

  predicate IsDigit(c: char) {
    '0' <= c <= '9'
  }

  predicate AllDigits(s: string) {
    forall i :: 0 <= i < |s| ==> IsDigit(s[i])
  }

  function DigitValue(c: char): nat
    requires IsDigit(c)
  {
    (c as int) - ('0' as int)
  }

  /** The number a string of decimal digits denotes. */
  function DecimalValue(s: string): nat
    requires AllDigits(s)
  {
    if s == [] then 0 else 10 * DecimalValue(s[..|s| - 1]) + DigitValue(s[|s| - 1])
  }

  // ------------------------------------------------------------------
  // Deep merge
  // ------------------------------------------------------------------

  /**
   * The result of `_deep_merge(base, overlay)`: the keys of `base` and no
   * other; where the overlay has the key, the merged value of the two.
   */
  function Merged(base: Config, overlay: Config): (r: Config)
    ensures r.Keys == base.Keys
    decreases D(overlay), 0
  {
    map k | k in base :: if k in overlay then MergeValue(base[k], overlay[k]) else base[k]
  }

  /** Two objects merge recursively; otherwise the overlay's value replaces the base's whole. */
  function MergeValue(b: Value, o: Value): Value
    decreases o, 1
  {
    if b.D? && o.D? then D(Merged(b.m, o.m)) else o
  }

  /**
   * `_deep_merge(base, overlay)`: walks the overlay's keys, skips a key the
   * base does not have, recurses where both sides hold objects, and
   * otherwise stores the overlay's value.
   */
  method DeepMerge(base: Config, overlay: Config) returns (r: Config)
    ensures r == Merged(base, overlay)
    decreases D(overlay)
  {
    r := base;
    var pending := overlay.Keys;
    while pending != {}
      invariant pending <= overlay.Keys
      invariant r.Keys == base.Keys
      invariant forall k :: k in r ==>
        r[k] == if k in overlay && k !in pending then MergeValue(base[k], overlay[k]) else base[k]
      decreases pending
    {
      var key :| key in pending;
      pending := pending - {key};
      if key !in r {
        // unknown key in the user file: logged and ignored
        continue;
      }
      var value := overlay[key];
      if value.D? && r[key].D? {
        var sub := DeepMerge(r[key].m, value.m);
        r := r[key := D(sub)];
      } else {
        r := r[key := value];
      }
    }
  }

  /**
   * Every key of `r` is a key of `base`, at every level where `base` holds
   * an object and `r` holds an object too.
   */
  predicate Conforms(r: Config, base: Config)
    decreases D(r)
  {
    forall k :: k in r ==> k in base && (r[k].D? && base[k].D? ==> Conforms(r[k].m, base[k].m))
  }

  lemma {:induction false} ConformsSelf(c: Config)
    ensures Conforms(c, c)
    decreases D(c)
  {
    forall k | k in c && c[k].D?
      ensures Conforms(c[k].m, c[k].m)
    {
      ConformsSelf(c[k].m);
    }
  }

  /**
   * The merge never adds a key the defaults lack, at any level where the
   * defaults hold an object.  (Under a default that is a scalar, an object
   * from the overlay is stored whole: see `ObjectOverScalarKept`.)
   */
  lemma {:induction false} MergeConforms(base: Config, overlay: Config)
    ensures Conforms(Merged(base, overlay), base)
    decreases D(overlay)
  {
    var r := Merged(base, overlay);
    forall k | k in r && r[k].D? && base[k].D?
      ensures Conforms(r[k].m, base[k].m)
    {
      if k in overlay && overlay[k].D? {
        MergeConforms(base[k].m, overlay[k].m);
      } else {
        ConformsSelf(base[k].m);
      }
    }
  }

  /** An object in the overlay under a scalar default replaces it, unknown keys and all. */
  lemma ObjectOverScalarKept(base: Config, overlay: Config, k: string)
    requires k in base && !base[k].D?
    requires k in overlay && overlay[k].D?
    ensures Merged(base, overlay)[k] == overlay[k]
  {
  }

  /** Merging the defaults over themselves gives the defaults back. */
  lemma {:induction false} MergeSelf(d: Config)
    ensures Merged(d, d) == d
    decreases D(d)
  {
    forall k | k in d
      ensures MergeValue(d[k], d[k]) == d[k]
    {
      if d[k].D? {
        MergeSelf(d[k].m);
      }
    }
  }

  /**
   * Saving a loaded configuration and loading it again changes nothing:
   * the merge of the defaults with a merge result is that result.
   */
  lemma {:induction false} ReloadStable(d: Config, o: Config)
    ensures Merged(d, Merged(d, o)) == Merged(d, o)
    decreases D(o)
  {
    var c := Merged(d, o);
    forall k | k in d
      ensures MergeValue(d[k], c[k]) == c[k]
    {
      if k in o && d[k].D? && o[k].D? {
        ReloadStable(d[k].m, o[k].m);
      } else if k !in o && d[k].D? {
        MergeSelf(d[k].m);
      }
    }
  }

  /**
   * `set(s, k, v); save(); <restart>; get(s, k)` yields `v` back exactly when
   * the defaults have section `s` and, where that section is an object,
   * key `k`: otherwise the load drops the entry and `get` falls back.
   */
  lemma SetSurvivesReload(d: Config, c: Config, s: string, k: string, v: Value, fallback: Value)
    requires !v.D? && fallback != v
    requires SetEntry(c, s, k, v).Ok?
    ensures Get(Merged(d, SetEntry(c, s, k, v).value), s, k, fallback) == Ok(v)
        <==> s in d && (d[s].D? ==> k in d[s].m)
  {
    var c2 := SetEntry(c, s, k, v).value;
    assert Get(c2, s, k, fallback) == Ok(v);
    if s in d && d[s].D? {
      var sec := Merged(d[s].m, c2[s].m);
      assert Merged(d, c2)[s] == D(sec);
      if k in d[s].m {
        assert sec[k] == MergeValue(d[s].m[k], v);
      }
    }
  }

  // ------------------------------------------------------------------
  // The manager
  // ------------------------------------------------------------------

  /**
   * Reading the bundled defaults: FileNotFoundError (no candidate path
   * exists), JSONDecodeError (the text is not JSON), or its object.
   */
  datatype DefaultsFile = Missing | Malformed | Parsed(doc: Config)

  /**
   * The user's override file: not there, an OSError on opening or reading
   * it or a JSONDecodeError on its text, or its object.
   */
  datatype UserFile = Absent | Unreadable | Stored(doc: Config)

  class SettingsManager {
    var defaults: Config
    var config: Config
    var userFile: UserFile

    /** `SettingsManager()`: loads at once. */
    constructor (defaultsFile: DefaultsFile, file: UserFile)
      ensures userFile == file
      ensures defaults == if defaultsFile.Parsed? then defaultsFile.doc else map[]
      ensures config == if file.Stored? then Merged(defaults, file.doc) else defaults
    {
      defaults := map[];
      config := map[];
      userFile := file;
      new;
      Load(defaultsFile);
    }

    /**
     * `_load()`: defaults (empty on FileNotFoundError or JSONDecodeError),
     * then a copy of them deep-merged with the user file when it can be
     * read; an absent user file, or one raising OSError or JSONDecodeError,
     * leaves exactly the defaults.
     */
    method Load(defaultsFile: DefaultsFile)
      modifies this
      ensures defaults == if defaultsFile.Parsed? then defaultsFile.doc else map[]
      ensures config == if userFile.Stored? then Merged(defaults, userFile.doc) else defaults
      ensures userFile == old(userFile)
    {
      defaults := if defaultsFile.Parsed? then defaultsFile.doc else map[];
      config := defaults;
      if userFile.Stored? {
        config := DeepMerge(config, userFile.doc);
      }
    }

    /** `set(section, key, value)`: memory only; `ok` is false where Python raises TypeError. */
    method Set(section: string, key: string, value: Value) returns (ok: bool)
      modifies this
      ensures ok <==> SetEntry(old(config), section, key, value).Ok?
      ensures config == if ok then SetEntry(old(config), section, key, value).value else old(config)
      ensures defaults == old(defaults) && userFile == old(userFile)
    {
      if section in config && !config[section].D? {
        return false;
      }
      var entries := if section in config then config[section].m else map[];
      config := config[section := D(entries[key := value])];
      ok := true;
    }

    /** `save()`: writes the configuration; an OSError is logged and changes nothing. */
    method Save(writable: bool)
      modifies this
      ensures userFile == if writable then Stored(config) else old(userFile)
      ensures config == old(config) && defaults == old(defaults)
    {
      if writable {
        userFile := Stored(config);
      }
    }

    /** `reset_to_defaults()`: a copy of the defaults becomes the configuration, then saved. */
    method ResetToDefaults(writable: bool)
      modifies this
      ensures config == defaults && defaults == old(defaults)
      ensures userFile == if writable then Stored(defaults) else old(userFile)
    {
      config := defaults;
      Save(writable);
    }
  }
}
