/** The assistant registry (`AssistantManager`): loading and validating the
    configured assistants, looking one up, the default one, and the list
    shown to the user sorted by name. */
module Assistants {
  import opened Common
  import opened Text
  import opened Sorting

  datatype Assistant = Assistant(id: string, name: string, description: string, systemPrompt: string,
                                 gateInstructions: string, outputPolicy: string)

  /** What reading the configuration file gave: no file at the path, a read
      error, a JSON error, or the parsed `assistants` list and
      `default_assistant`. */
  datatype ConfigSource = NotFound(path: string) | ReadFailed(readError: string) | ParseFailed(parseError: string)
                        | Parsed(assistants: seq<Assistant>, defaultAssistant: string)

  /** The complaint about one entry, checked in this order: empty id, empty
      name, empty system prompt. */
  function EntryError(a: Assistant): (e: Option<string>)
    ensures e.None? <==> a.id != [] && a.name != [] && a.systemPrompt != []
  {
    if a.id == [] then Some("Assistant with empty ID found in config")
    else if a.name == [] then Some("Assistant '" + a.id + "' has empty name")
    else if a.systemPrompt == [] then Some("Assistant '" + a.id + "' has empty system_prompt")
    else None
  }

  /** The map built by the insertion loop, stopping at the first invalid
      entry. */
  function Build(entries: seq<Assistant>): Result<map<string, Assistant>, string> {
    if entries == [] then Ok(map[])
    else
      var a := entries[|entries| - 1];
      match Build(entries[..|entries| - 1])
      case Err(e) => Err(e)
      case Ok(m) => if EntryError(a).Some? then Err(EntryError(a).value) else Ok(m[a.id := a])
  }

  /** `load_from_file` after the file was read. */
  function Load(source: ConfigSource): Result<(map<string, Assistant>, string), string> {
    match source
    case NotFound(path) => Err("Assistants config file not found at: " + path)
    case ReadFailed(e) => Err("Failed to read assistants config file: " + e)
    case ParseFailed(e) => Err("Failed to parse assistants config JSON: " + e)
    case Parsed(entries, default) =>
      if entries == [] then Err("No assistants defined in config file")
      else
        match Build(entries)
        case Err(e) => Err(e)
        case Ok(m) =>
          if default !in m then Err("Default assistant '" + default + "' not found in assistants list")
          else Ok((m, default))
  }

  /** Every stored assistant is stored under its own id. */
  predicate KeyedById(m: map<string, Assistant>) {
    forall k :: k in m ==> m[k].id == k
  }

  // ---------------------------------------------------------------------
  // What loading promises

  /** Once an entry is rejected, the entries after it are not looked at. */
  lemma {:induction false} BuildErrSticky(entries: seq<Assistant>, i: nat)
    requires i <= |entries| && Build(entries[..i]).Err?
    ensures Build(entries) == Build(entries[..i])
    decreases |entries| - i
  {
    if i < |entries| {
      var j := |entries| - 1;
      assert entries[..j][..i] == entries[..i];
      BuildErrSticky(entries[..j], i);
    } else {
      assert entries[..i] == entries;
    }
  }

  /** Loading fails on an entry iff some entry is invalid, and then with the
      complaint about the first one. */
  lemma {:induction false} BuildFirstOffender(entries: seq<Assistant>)
    ensures Build(entries).Err? <==> exists i :: 0 <= i < |entries| && EntryError(entries[i]).Some?
    ensures Build(entries).Err? ==>
      exists i :: 0 <= i < |entries| && EntryError(entries[i]).Some?
        && (forall j :: 0 <= j < i ==> EntryError(entries[j]).None?)
        && Build(entries).error == EntryError(entries[i]).value
  {
    if entries != [] {
      var n := |entries| - 1;
      var init := entries[..n];
      BuildFirstOffender(init);
      if Build(init).Err? {
        var i :| 0 <= i < n && EntryError(init[i]).Some?
          && (forall j :: 0 <= j < i ==> EntryError(init[j]).None?)
          && Build(init).error == EntryError(init[i]).value;
        assert init[i] == entries[i];
        forall j | 0 <= j < i ensures EntryError(entries[j]).None? {
          assert init[j] == entries[j];
        }
      } else if EntryError(entries[n]).Some? {
        forall j | 0 <= j < n ensures EntryError(entries[j]).None? {
          assert init[j] == entries[j];
        }
      } else {
        forall i | 0 <= i < |entries| ensures EntryError(entries[i]).None? {
          if i < n {
            assert init[i] == entries[i];
          }
        }
      }
    }
  }

  /** A loaded registry stores every assistant under its own id. */
  lemma {:induction false} BuildKeyed(entries: seq<Assistant>)
    requires Build(entries).Ok?
    ensures KeyedById(Build(entries).value)
  {
    if entries != [] {
      BuildKeyed(entries[..|entries| - 1]);
    }
  }

  /** A loaded registry holds exactly the ids of the list. */
  lemma {:induction false} BuildKeys(entries: seq<Assistant>)
    requires Build(entries).Ok?
    ensures forall id :: id in Build(entries).value <==> exists i :: 0 <= i < |entries| && entries[i].id == id
  {
    if entries != [] {
      var n := |entries| - 1;
      var init := entries[..n];
      BuildKeys(init);
      forall id | id in Build(init).value
        ensures exists i :: 0 <= i < |entries| && entries[i].id == id
      {
        var i :| 0 <= i < n && init[i].id == id;
        assert entries[i].id == id;
      }
      forall i | 0 <= i < n
        ensures entries[i].id in Build(init).value
      {
        assert init[i] == entries[i];
      }
    }
  }

  /** An id listed several times holds its last entry. */
  lemma {:induction false} BuildLastWins(entries: seq<Assistant>, i: nat)
    requires Build(entries).Ok? && i < |entries|
    requires forall j :: i < j < |entries| ==> entries[j].id != entries[i].id
    ensures entries[i].id in Build(entries).value && Build(entries).value[entries[i].id] == entries[i]
  {
    var n := |entries| - 1;
    if i < n {
      var init := entries[..n];
      assert init[i] == entries[i];
      BuildLastWins(init, i);
    }
  }

  /** A successful load has a default that is one of the assistants. */
  lemma LoadDefault(source: ConfigSource)
    requires Load(source).Ok?
    ensures var (m, default) := Load(source).value;
      && source.Parsed? && default == source.defaultAssistant && default in m && m != map[]
      && KeyedById(m) && Build(source.assistants) == Ok(m)
  {
    BuildKeyed(source.assistants);
  }

  /** An empty list is rejected whatever the default says. */
  lemma EmptyListRejected(default: string)
    ensures Load(Parsed([], default)) == Err("No assistants defined in config file")
  {
  }

  class AssistantManager {
    var assistants: map<string, Assistant>
    var defaultId: string

    /** `AssistantManager::empty`. */
    constructor Empty()
      ensures assistants == map[] && defaultId == ""
    {
      assistants := map[];
      defaultId := "";
    }

    constructor FromMap(m: map<string, Assistant>, default: string)
      ensures assistants == m && defaultId == default
    {
      assistants := m;
      defaultId := default;
    }

    /** `load_from_file`. */
    static method LoadFromFile(source: ConfigSource) returns (r: Result<AssistantManager, string>)
      ensures r.Err? <==> Load(source).Err?
      ensures r.Err? ==> r.error == Load(source).error
      ensures r.Ok? ==> fresh(r.value) && r.value.assistants == Load(source).value.0
                        && r.value.defaultId == Load(source).value.1
    {
      if source.NotFound? {
        return Err("Assistants config file not found at: " + source.path);
      } else if source.ReadFailed? {
        return Err("Failed to read assistants config file: " + source.readError);
      } else if source.ParseFailed? {
        return Err("Failed to parse assistants config JSON: " + source.parseError);
      }
      var entries, default := source.assistants, source.defaultAssistant;
      if entries == [] {
        return Err("No assistants defined in config file");
      }
      var built := InsertAll(entries);
      if built.Err? {
        return Err(built.error);
      }
      if default !in built.value {
        return Err("Default assistant '" + default + "' not found in assistants list");
      }
      var manager := new AssistantManager.FromMap(built.value, default);
      return Ok(manager);
    }

    /** The insertion loop with its early returns. */
    static method InsertAll(entries: seq<Assistant>) returns (r: Result<map<string, Assistant>, string>)
      ensures r == Build(entries)
    {
      var m: map<string, Assistant> := map[];
      for i := 0 to |entries|
        invariant Build(entries[..i]) == Ok(m)
      {
        var a := entries[i];
        assert entries[..i + 1][..i] == entries[..i];
        if a.id == [] {
          BuildErrSticky(entries, i + 1);
          return Err("Assistant with empty ID found in config");
        }
        if a.name == [] {
          BuildErrSticky(entries, i + 1);
          return Err("Assistant '" + a.id + "' has empty name");
        }
        if a.systemPrompt == [] {
          BuildErrSticky(entries, i + 1);
          return Err("Assistant '" + a.id + "' has empty system_prompt");
        }
        m := m[a.id := a];
      }
      assert entries[..|entries|] == entries;
      return Ok(m);
    }

    /** `get_assistant`. */
    function GetAssistant(id: string): (r: Option<Assistant>)
      reads this
      ensures r.Some? <==> id in assistants
      ensures r.Some? ==> r.value == assistants[id] && (KeyedById(assistants) ==> r.value.id == id)
    {
      if id in assistants then Some(assistants[id]) else None
    }

    /** `get_default_assistant`: the default, or else some stored assistant;
        with no assistant at all the `unwrap` panics. */
    method GetDefaultAssistant() returns (r: Outcome<Assistant>)
      ensures defaultId in assistants ==> r == Returned(assistants[defaultId])
      ensures r.Returned? ==> r.value in assistants.Values
      ensures r.Panicked? <==> assistants == map[]
    {
      if defaultId in assistants {
        return Returned(assistants[defaultId]);
      }
      if assistants == map[] {
        return Panicked("called `Option::unwrap()` on a `None` value");
      }
      var k :| k in assistants;
      return Returned(assistants[k]);
    }

    /** `list_assistants`: every stored assistant once, ordered by name. */
    method ListAssistants() returns (list: seq<Assistant>)
      requires KeyedById(assistants)
      ensures |list| == |assistants|
      ensures forall a :: a in list <==> a in assistants.Values
      ensures forall i, j :: 0 <= i < j < |list| ==> list[i] != list[j]
      ensures forall i, j :: 0 <= i < j < |list| ==> StrLe(list[i].name, list[j].name)
    {
      var values := CollectValues();
      list := SortByName(values, (a: Assistant) => a.name);
      SortByNameSorted(values, (a: Assistant) => a.name);
      assert multiset(list) == multiset(values);
      forall a ensures a in list <==> a in values {
        assert a in list <==> a in multiset(list);
        assert a in values <==> a in multiset(values);
      }
      forall x ensures multiset(list)[x] <= 1 {
        DistinctCount(values, x);
      }
      CountDistinct(list);
    }

    /** `values().collect()`: the stored assistants in some order. */
    method CollectValues() returns (values: seq<Assistant>)
      requires KeyedById(assistants)
      ensures |values| == |assistants|
      ensures forall a :: a in values <==> a in assistants.Values
      ensures forall i, j :: 0 <= i < j < |values| ==> values[i] != values[j]
    {
      var keys := assistants.Keys;
      values := [];
      while keys != {}
        invariant keys <= assistants.Keys
        invariant |values| + |keys| == |assistants|
        invariant forall i :: 0 <= i < |values| ==> values[i].id in assistants && values[i].id !in keys
                                                    && assistants[values[i].id] == values[i]
        invariant forall k :: k in assistants && k !in keys ==> assistants[k] in values
        invariant forall i, j :: 0 <= i < j < |values| ==> values[i] != values[j]
        decreases |keys|
      {
        var k :| k in keys;
        values := values + [assistants[k]];
        keys := keys - {k};
      }
      forall a | a in assistants.Values ensures a in values {
        var k :| k in assistants && assistants[k] == a;
      }
    }
  }

  /** An element that occurs once in a sequence without repeats counts once. */
  lemma {:induction false} DistinctCount<T>(s: seq<T>, x: T)
    requires forall i, j :: 0 <= i < j < |s| ==> s[i] != s[j]
    ensures multiset(s)[x] <= 1
  {
    if s != [] {
      var init := s[..|s| - 1];
      DistinctCount(init, x);
      assert s == init + [s[|s| - 1]];
      if s[|s| - 1] == x {
        assert x !in init;
      }
    }
  }

  /** A sequence in which nothing counts twice has no repeats. */
  lemma CountDistinct<T>(s: seq<T>)
    requires forall x :: multiset(s)[x] <= 1
    ensures forall i, j :: 0 <= i < j < |s| ==> s[i] != s[j]
  {
    forall i, j | 0 <= i < j < |s| ensures s[i] != s[j] {
      if s[i] == s[j] {
        MultisetTwo(s, i, j);
      }
    }
  }

  lemma MultisetTwo<T>(s: seq<T>, i: nat, j: nat)
    requires i < j < |s| && s[i] == s[j]
    ensures multiset(s)[s[i]] >= 2
  {
    assert s == s[..i] + [s[i]] + s[i + 1..j] + [s[j]] + s[j + 1..];
  }
}
