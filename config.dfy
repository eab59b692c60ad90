/**
  The watcher's flat configuration file: one `key=value` pair per line, with
  blank lines and `#` comments ignored, followed by the check that the four
  settings the watcher needs are present and non-empty.
 */
module Config {
  import opened Wrappers
  import opened Text

  datatype ConfigError =
    | ConfigNotFound            // the file does not exist
    | MalformedLine(index: nat) // a line that is neither skipped nor holds an '='
    | ConfigIncomplete          // a required key is absent or empty

  /** What one line of the file contributes. */
  datatype Line = Skipped | Entry(key: string, value: string) | Malformed

  /** A stripped line is skipped when it is empty or starts with '#'; any
      other line must hold an '=' and yields the stripped text on either
      side of the first one. */
  function ClassifyLine(raw: string): Line {
    var line := Trim(raw);
    if line == [] || line[0] == '#' then Skipped
    else match SplitAtFirst(line, '=')
      case None => Malformed
      case Some((k, v)) => Entry(Trim(k), Trim(v))
  }

  lemma ClassifyLineSkipped(raw: string)
    requires Trim(raw) == [] || Trim(raw)[0] == '#'
    ensures ClassifyLine(raw) == Skipped
  {
  }

  lemma ClassifyLineMalformed(raw: string)
    requires Trim(raw) != [] && Trim(raw)[0] != '#' && SplitAtFirst(Trim(raw), '=').None?
    ensures ClassifyLine(raw) == Malformed
  {
  }

  lemma ClassifyLineEntry(raw: string, key: string, value: string)
    requires Trim(raw) != [] && Trim(raw)[0] != '#' && SplitAtFirst(Trim(raw), '=') == Some((key, value))
    ensures ClassifyLine(raw) == Entry(Trim(key), Trim(value))
  {
  }

  /** An entry's key holds no '=', and key and value carry no surrounding
      whitespace. */
  lemma ClassifyLineEntryShape(raw: string)
    requires ClassifyLine(raw).Entry?
    ensures '=' !in ClassifyLine(raw).key
    ensures Stripped(ClassifyLine(raw).key) && Stripped(ClassifyLine(raw).value)
  {
    var (k, v) := SplitAtFirst(Trim(raw), '=').value;
    TrimKeepsAbsent(k, '=');
  }

  /** Round trip: a line written as `key=value` from an already stripped,
      '='-free key that does not open a comment, and any stripped value, is
      read back as exactly that entry. */
  lemma ClassifyLineOfEntry(key: string, value: string)
    requires '=' !in key && Stripped(key) && Stripped(value)
    requires key == [] || key[0] != '#'
    ensures ClassifyLine(key + "=" + value) == Entry(key, value)
  {
    var line := key + "=" + value;
    assert Stripped(line) by {
      assert line[|key|] == '=';
      assert key != [] ==> line[0] == key[0];
      assert value != [] ==> line[|line| - 1] == value[|value| - 1];
    }
    TrimOfTrimmed(line);
    SplitAtFirstJoin(key, '=', value);
    TrimOfTrimmed(key);
    TrimOfTrimmed(value);
  }

  predicate IsEntryFor(l: Line, key: string) {
    l.Entry? && l.key == key
  }

  /** Every line of the file, classified. */
  function ClassifyAll(lines: seq<string>): (ls: seq<Line>)
    ensures |ls| == |lines|
  {
    seq(|lines|, i requires 0 <= i < |lines| => ClassifyLine(lines[i]))
  }

  lemma ClassifyAllAt(lines: seq<string>, i: nat)
    requires i < |lines|
    ensures ClassifyAll(lines)[i] == ClassifyLine(lines[i])
  {
  }

  lemma ClassifyAllEach(lines: seq<string>)
    ensures forall i :: 0 <= i < |lines| ==> ClassifyAll(lines)[i] == ClassifyLine(lines[i])
  {
    forall i | 0 <= i < |lines| ensures ClassifyAll(lines)[i] == ClassifyLine(lines[i]) {
      ClassifyAllAt(lines, i);
    }
  }

  /** Builds the map from classified lines: each entry overwrites the key it
      names, and the first malformed line aborts with its index. */
  function Collect(ls: seq<Line>): Result<map<string, string>, ConfigError> {
    if ls == [] then Ok(map[])
    else
      var prev := Collect(ls[..|ls| - 1]);
      if prev.Err? then prev
      else match ls[|ls| - 1]
        case Skipped => prev
        case Entry(k, v) => Ok(prev.value[k := v])
        case Malformed => Err(MalformedLine(|ls| - 1))
  }

  /** The reading of a whole file's lines. */
  function ParseLines(lines: seq<string>): Result<map<string, string>, ConfigError> {
    Collect(ClassifyAll(lines))
  }

  /** The whole loader: a missing file is its own error. */
  function ReadConfig(file: Option<seq<string>>): Result<map<string, string>, ConfigError> {
    match file
    case None => Err(ConfigNotFound)
    case Some(lines) => ParseLines(lines)
  }

  /** Once a prefix fails, the whole sequence fails with the same error. */
  lemma {:induction false} CollectErrorPersists(ls: seq<Line>, n: nat)
    requires n <= |ls| && Collect(ls[..n]).Err?
    ensures Collect(ls) == Collect(ls[..n])
    decreases |ls| - n
  {
    if n < |ls| {
      assert ls[..n + 1][..n] == ls[..n];
      CollectErrorPersists(ls, n + 1);
    } else {
      assert ls[..n] == ls;
    }
  }

  /** One more classified line extends a successful collection. */
  lemma CollectSnoc(ls: seq<Line>, n: nat, m: map<string, string>)
    requires n < |ls| && Collect(ls[..n]) == Ok(m)
    ensures ls[n].Skipped? ==> Collect(ls[..n + 1]) == Ok(m)
    ensures ls[n].Entry? ==> Collect(ls[..n + 1]) == Ok(m[ls[n].key := ls[n].value])
    ensures ls[n].Malformed? ==> Collect(ls[..n + 1]) == Err(MalformedLine(n))
  {
    assert ls[..n + 1][..n] == ls[..n];
  }

  /** A line the loader skips leaves the collected map as it was. */
  lemma LoadSkipStep(lines: seq<string>, i: nat, m: map<string, string>)
    requires i < |lines| && Collect(ClassifyAll(lines)[..i]) == Ok(m)
    requires Trim(lines[i]) == [] || Trim(lines[i])[0] == '#'
    ensures Collect(ClassifyAll(lines)[..i + 1]) == Ok(m)
  {
    var ls := ClassifyAll(lines);
    ClassifyAllAt(lines, i);
    ClassifyLineSkipped(lines[i]);
    CollectSnoc(ls, i, m);
  }

  /** A key=value line adds its trimmed key and value to the map. */
  lemma LoadEntryStep(lines: seq<string>, i: nat, m: map<string, string>, key: string, value: string)
    requires i < |lines| && Collect(ClassifyAll(lines)[..i]) == Ok(m)
    requires Trim(lines[i]) != [] && Trim(lines[i])[0] != '#'
    requires SplitAtFirst(Trim(lines[i]), '=') == Some((key, value))
    ensures Collect(ClassifyAll(lines)[..i + 1]) == Ok(m[Trim(key) := Trim(value)])
  {
    var ls := ClassifyAll(lines);
    ClassifyAllAt(lines, i);
    ClassifyLineEntry(lines[i], key, value);
    CollectSnoc(ls, i, m);
  }

  /** A line without '=' makes the whole file fail at that line. */
  lemma LoadMalformedStep(lines: seq<string>, i: nat, m: map<string, string>)
    requires i < |lines| && Collect(ClassifyAll(lines)[..i]) == Ok(m)
    requires Trim(lines[i]) != [] && Trim(lines[i])[0] != '#'
    requires SplitAtFirst(Trim(lines[i]), '=').None?
    ensures ParseLines(lines) == Err(MalformedLine(i))
  {
    var ls := ClassifyAll(lines);
    ClassifyAllAt(lines, i);
    ClassifyLineMalformed(lines[i]);
    CollectSnoc(ls, i, m);
    CollectErrorPersists(ls, i + 1);
  }

  /** The loader as the program runs it: one pass over the lines, adding
      each entry to the map in place. */
  method LoadConfig(file: Option<seq<string>>) returns (r: Result<map<string, string>, ConfigError>)
    ensures r == ReadConfig(file)
  {
    if file.None? {
      return Err(ConfigNotFound);
    }
    var lines := file.value;
    var config: map<string, string> := map[];
    var i := 0;
    assert ClassifyAll(lines)[..i] == [];
    while i < |lines|
      invariant 0 <= i <= |lines|
      invariant Collect(ClassifyAll(lines)[..i]) == Ok(config)
    {
      var line := Trim(lines[i]);
      if line != [] && line[0] != '#' {
        var parts := SplitAtFirst(line, '=');
        if parts.None? {
          LoadMalformedStep(lines, i, config);
          return Err(MalformedLine(i));
        }
        var key := parts.value.0;
        var value := parts.value.1;
        LoadEntryStep(lines, i, config, key, value);
        config := config[Trim(key) := Trim(value)];
      } else {
        LoadSkipStep(lines, i, config);
      }
      i := i + 1;
    }
    assert ClassifyAll(lines)[..i] == ClassifyAll(lines);
    r := Ok(config);
  }

  /** Collecting succeeds exactly when no line is malformed. */
  lemma {:induction false} CollectSucceedsIff(ls: seq<Line>)
    ensures Collect(ls).Ok? <==> forall i :: 0 <= i < |ls| ==> !ls[i].Malformed?
  {
    if ls != [] {
      var init := ls[..|ls| - 1];
      CollectSucceedsIff(init);
      assert forall i :: 0 <= i < |init| ==> init[i] == ls[i];
    }
  }

  /** A failed collection names the first malformed line. */
  lemma {:induction false} CollectErrorIsFirstMalformed(ls: seq<Line>)
    requires Collect(ls).Err?
    ensures Collect(ls).error.MalformedLine?
    ensures var j := Collect(ls).error.index;
            j < |ls| && ls[j].Malformed? && forall i :: 0 <= i < j ==> !ls[i].Malformed?
  {
    var init := ls[..|ls| - 1];
    assert forall i :: 0 <= i < |init| ==> init[i] == ls[i];
    if Collect(init).Err? {
      CollectErrorIsFirstMalformed(init);
    } else {
      CollectSucceedsIff(init);
    }
  }

  /** A key is in the map exactly when some line is an entry for it. */
  lemma {:induction false} CollectKeys(ls: seq<Line>, key: string)
    requires Collect(ls).Ok?
    ensures key in Collect(ls).value <==> exists i :: 0 <= i < |ls| && IsEntryFor(ls[i], key)
  {
    if ls != [] {
      var n := |ls| - 1;
      var init := ls[..n];
      assert forall i :: 0 <= i < n ==> init[i] == ls[i];
      CollectKeys(init, key);
    }
  }

  /** Last writer wins: the value of a key is the one on the last line that
      is an entry for it. */
  lemma {:induction false} CollectLastWins(ls: seq<Line>, key: string, i: nat)
    requires Collect(ls).Ok?
    requires i < |ls| && IsEntryFor(ls[i], key)
    requires forall j :: i < j < |ls| ==> !IsEntryFor(ls[j], key)
    ensures key in Collect(ls).value && Collect(ls).value[key] == ls[i].value
  {
    var n := |ls| - 1;
    var init := ls[..n];
    if i < n {
      assert forall j :: 0 <= j < n ==> init[j] == ls[j];
      CollectLastWins(init, key, i);
    }
  }

  /** Reading a file succeeds exactly when none of its lines is malformed;
      otherwise it fails at the first malformed line. */
  lemma ParseLinesOutcome(lines: seq<string>)
    ensures ParseLines(lines).Ok? <==> forall i :: 0 <= i < |lines| ==> !ClassifyLine(lines[i]).Malformed?
    ensures ParseLines(lines).Err? ==>
              var e := ParseLines(lines).error;
              e.MalformedLine? && e.index < |lines| && ClassifyLine(lines[e.index]).Malformed?
              && forall i :: 0 <= i < e.index ==> !ClassifyLine(lines[i]).Malformed?
  {
    var ls := ClassifyAll(lines);
    ClassifyAllEach(lines);
    CollectSucceedsIff(ls);
    if Collect(ls).Err? {
      CollectErrorIsFirstMalformed(ls);
    }
  }

  /** On the file: a key is set exactly when some line is an entry for it. */
  lemma ParseLinesKeys(lines: seq<string>, key: string)
    requires ParseLines(lines).Ok?
    ensures key in ParseLines(lines).value <==>
              exists i :: 0 <= i < |lines| && IsEntryFor(ClassifyLine(lines[i]), key)
  {
    var ls := ClassifyAll(lines);
    CollectKeys(ls, key);
    ClassifyAllEach(lines);
  }

  /** On the file, last writer wins: the value of a key is the one on the
      last line that sets it, whatever earlier lines said. */
  lemma ParseLinesLastWins(lines: seq<string>, key: string, i: nat)
    requires ParseLines(lines).Ok?
    requires i < |lines| && IsEntryFor(ClassifyLine(lines[i]), key)
    requires forall j :: i < j < |lines| ==> !IsEntryFor(ClassifyLine(lines[j]), key)
    ensures key in ParseLines(lines).value
    ensures ParseLines(lines).value[key] == ClassifyLine(lines[i]).value
  {
    ClassifyAllEach(lines);
    CollectLastWins(ClassifyAll(lines), key, i);
  }

  /** The keys the watcher cannot start without. */
  const RequiredKeys: seq<string> := ["HELIUS_API_KEY", "SOLANA_WALLET", "TELEGRAM_TOKEN", "CHAT_ID"]

  /** The validated configuration, passed to every later stage. */
  datatype Settings = Settings(heliusApiKey: string, wallet: string, telegramToken: string, chatId: string)

  /** A key counts as given when present with a non-empty value (Python's
      truthiness of `config.get(key)`). */
  predicate Given(config: map<string, string>, key: string) {
    key in config && config[key] != ""
  }

  /** Accepts the map exactly when all four required keys are given, and
      then carries their values. */
  function Validate(config: map<string, string>): (r: Result<Settings, ConfigError>)
    ensures r.Ok? <==> forall k :: k in RequiredKeys ==> Given(config, k)
    ensures r.Err? ==> r.error == ConfigIncomplete
    ensures r.Ok? ==> && "HELIUS_API_KEY" in config && "SOLANA_WALLET" in config
                      && "TELEGRAM_TOKEN" in config && "CHAT_ID" in config
                      && r.value == Settings(config["HELIUS_API_KEY"], config["SOLANA_WALLET"],
                                             config["TELEGRAM_TOKEN"], config["CHAT_ID"])
  {
    if Given(config, "HELIUS_API_KEY") && Given(config, "SOLANA_WALLET")
       && Given(config, "TELEGRAM_TOKEN") && Given(config, "CHAT_ID")
    then Ok(Settings(config["HELIUS_API_KEY"], config["SOLANA_WALLET"],
                     config["TELEGRAM_TOKEN"], config["CHAT_ID"]))
    else Err(ConfigIncomplete)
  }

  /** Start-up: read the file, then validate; no later stage runs on an error. */
  function Startup(file: Option<seq<string>>): (r: Result<Settings, ConfigError>)
    ensures file.None? ==> r == Err(ConfigNotFound)
    ensures file.Some? && ParseLines(file.value).Err? ==> r == Err(ParseLines(file.value).error)
    ensures file.Some? && ParseLines(file.value).Ok? ==> r == Validate(ParseLines(file.value).value)
    ensures r.Ok? <==> && file.Some? && ParseLines(file.value).Ok?
                       && forall k :: k in RequiredKeys ==> Given(ParseLines(file.value).value, k)
  {
    match ReadConfig(file)
    case Err(e) => Err(e)
    case Ok(config) => Validate(config)
  }

  /** A required key that no line sets stops the program at start-up. */
  lemma StartupFailsOnMissingKey(lines: seq<string>, key: string)
    requires key in RequiredKeys
    requires forall i :: 0 <= i < |lines| ==> !IsEntryFor(ClassifyLine(lines[i]), key)
    ensures Startup(Some(lines)).Err?
  {
    if ParseLines(lines).Ok? {
      ParseLinesKeys(lines, key);
      assert !Given(ParseLines(lines).value, key);
    }
  }

  /** A required key whose last setting is empty stops the program too, even
      when an earlier line gave it a value. */
  lemma StartupFailsOnEmptyLastValue(lines: seq<string>, i: nat, key: string)
    requires key in RequiredKeys
    requires i < |lines| && ClassifyLine(lines[i]) == Entry(key, "")
    requires forall j :: i < j < |lines| ==> !IsEntryFor(ClassifyLine(lines[j]), key)
    ensures Startup(Some(lines)).Err?
  {
    if ParseLines(lines).Ok? {
      ParseLinesLastWins(lines, key, i);
      assert !Given(ParseLines(lines).value, key);
    }
  }
}
