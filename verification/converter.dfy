/**
 * The parameter-assembly core of `convert_to_meme_quality` and `find_ffmpeg`:
 * choosing a quality preset, merging user overrides into it, laying out the
 * ffmpeg command line, locating the ffmpeg executable, and the fail-fast order
 * in which a conversion checks its input and its tool before running anything.
 *
 * The host is passed in rather than consulted: the set of filesystem entries
 * that exist stands for `os.path.exists`, a `ProbeResult` for the outcome of
 * running `ffmpeg -version`, and an exit status for what the conversion
 * command returns when the shell runs it.
 */
module Converter {
  import opened Wrappers

  // ---------------------------------------------------------------------------
  // Configurations and presets

  /** The configuration keys, spelled as in the source. */
  const ResKey := "res"
  const VBitrateKey := "v_bitrate"
  const ABitrateKey := "a_bitrate"
  const FpsKey := "fps"

  /** A configuration is a flat string dictionary; overrides may add keys. */
  type Config = map<string, string>

  /** `custom_config`: each key maps to a string or to `None`. */
  type Overrides = map<string, Option<string>>

  /** All four fields the command line reads are present. */
  predicate Complete(c: Config) {
    ResKey in c && VBitrateKey in c && ABitrateKey in c && FpsKey in c
  }

  function Preset(res: string, vBitrate: string, aBitrate: string, fps: string): Config {
    map[ResKey := res, VBitrateKey := vBitrate, ABitrateKey := aBitrate, FpsKey := fps]
  }

  /** The built-in preset table, keyed by quality name. */
  function Presets(): (table: map<string, Config>)
    ensures table.Keys == {"low", "medium", "high"}
    ensures forall quality :: quality in table ==> Complete(table[quality])
  {
    map[
      "low" := Preset("176x144", "30k", "8k", "8"),
      "medium" := Preset("320x240", "80k", "24k", "12"),
      "high" := Preset("480x360", "250k", "48k", "20")
    ]
  }

  /** `presets.get(quality, presets['medium'])`. */
  function SelectPreset(quality: string): (c: Config)
    ensures Complete(c)
    ensures c.Keys == {ResKey, VBitrateKey, ABitrateKey, FpsKey}
  {
    if quality in Presets() then Presets()[quality] else Presets()["medium"]
  }

  /** The three named presets carry exactly the documented values. */
  lemma PresetValues()
    ensures var c := SelectPreset("low");
      c[ResKey] == "176x144" && c[VBitrateKey] == "30k" && c[ABitrateKey] == "8k" && c[FpsKey] == "8"
    ensures var c := SelectPreset("medium");
      c[ResKey] == "320x240" && c[VBitrateKey] == "80k" && c[ABitrateKey] == "24k" && c[FpsKey] == "12"
    ensures var c := SelectPreset("high");
      c[ResKey] == "480x360" && c[VBitrateKey] == "250k" && c[ABitrateKey] == "48k" && c[FpsKey] == "20"
  {
  }

  /** Any quality name other than the three preset names gets the medium preset,
      and the three presets are pairwise different. */
  lemma UnknownQualityIsMedium(quality: string)
    ensures quality !in {"low", "medium", "high"} ==> SelectPreset(quality) == SelectPreset("medium")
    ensures quality in {"low", "medium", "high"} && quality != "medium" ==>
      SelectPreset(quality) != SelectPreset("medium")
  {
  }

  // ---------------------------------------------------------------------------
  // Override merge

  /** Python truthiness of an override value: neither `None` nor empty. */
  predicate IsSet(v: Option<string>) {
    v.Some? && v.value != ""
  }

  /** The keys whose override value is set. */
  function SetKeys(o: Overrides): set<string> {
    set k | k in o && IsSet(o[k])
  }

  /**
   * The configuration after overrides, stated key by key: a key with a set
   * override takes the override value; every other key of `base` keeps its
   * value.  `None` stands for a missing (or empty, hence falsy) `custom_config`.
   */
  function Merged(base: Config, custom: Option<Overrides>): (r: Config)
    ensures base.Keys <= r.Keys
  {
    match custom
    case None => base
    case Some(o) =>
      map k | k in base.Keys + SetKeys(o) :: if k in SetKeys(o) then o[k].value else base[k]
  }

  /** The merge rules, one field at a time. */
  lemma MergedFieldwise(base: Config, custom: Option<Overrides>, k: string)
    ensures custom.None? ==> Merged(base, custom) == base
    ensures custom.Some? && k in custom.value && IsSet(custom.value[k]) ==>
      k in Merged(base, custom) && Merged(base, custom)[k] == custom.value[k].value
    ensures k in base && (custom.None? || k !in custom.value || !IsSet(custom.value[k])) ==>
      Merged(base, custom)[k] == base[k]
    ensures k in Merged(base, custom) ==>
      k in base || (custom.Some? && k in custom.value && IsSet(custom.value[k]))
  {
  }

  /**
   * The loop of `convert_to_meme_quality` that writes each truthy override
   * into the chosen configuration.  Python's dictionary keys are distinct, so
   * the order in which the loop visits them does not matter.
   */
  method ApplyOverrides(preset: Config, custom: Option<Overrides>) returns (config: Config)
    ensures config == Merged(preset, custom)
  {
    config := preset;
    if custom.Some? {
      var o := custom.value;
      var pending := o.Keys;
      while pending != {}
        invariant pending <= o.Keys
        invariant config == Merged(preset, Some(o - pending))
        decreases pending
      {
        var key :| key in pending;
        if IsSet(o[key]) {
          config := config[key := o[key].value];
        }
        pending := pending - {key};
      }
      assert o - pending == o;
    }
  }

  // ---------------------------------------------------------------------------
  // Command construction

  function Quote(s: string): string {
    "\"" + s + "\""
  }

  /** `fragment` occurs in `s` starting at index `i`. */
  predicate OccursAt(fragment: string, s: string, i: int) {
    0 <= i <= |s| - |fragment| && s[i..i + |fragment|] == fragment
  }

  /** `fragment` occurs somewhere in `s`. */
  ghost predicate Occurs(fragment: string, s: string) {
    exists i :: OccursAt(fragment, s, i)
  }

  lemma OccursBetween(prefix: string, fragment: string, suffix: string)
    ensures Occurs(fragment, prefix + fragment + suffix)
  {
    var s := prefix + fragment + suffix;
    assert s[|prefix|..|prefix| + |fragment|] == fragment;
    assert OccursAt(fragment, s, |prefix|);
  }

  /** The ffmpeg arguments, one group of flags at a time. */
  function InputArgs(input: string): string {
    " -i " + Quote(input)
  }

  function FilterArgs(config: Config): string
    requires Complete(config)
  {
    " -vf " + Quote("fps=" + config[FpsKey] + ",scale=" + config[ResKey] + ":flags=neighbor")
  }

  function VideoArgs(config: Config): string
    requires Complete(config)
  {
    " -vcodec libx264 -b:v " + config[VBitrateKey] + " -maxrate " + config[VBitrateKey] + " -bufsize 500k"
  }

  function AudioArgs(config: Config): string
    requires Complete(config)
  {
    " -acodec libmp3lame -b:a " + config[ABitrateKey] + " -ar 22050 -ac 1"
  }

  function OutputArgs(output: string): string {
    " -y " + Quote(output)
  }

  /** The shell command line that runs ffmpeg on `input`, writing `output`. */
  function Command(tool: string, input: string, output: string, config: Config): (cmd: string)
    requires Complete(config)
    ensures tool + " -i " + Quote(input) <= cmd
  {
    var head := tool + InputArgs(input);
    var rest := FilterArgs(config) + VideoArgs(config) + AudioArgs(config) + OutputArgs(output);
    assert head + rest == tool + InputArgs(input) + FilterArgs(config) + VideoArgs(config) + AudioArgs(config) + OutputArgs(output);
    assert (head + rest)[..|head|] == head;

    tool + InputArgs(input) + FilterArgs(config) + VideoArgs(config) + AudioArgs(config) + OutputArgs(output)
  }

  /** The command names the tool, then the quoted input, and ends by forcing
      the overwrite of the quoted output. */
  lemma CommandEnds(tool: string, input: string, output: string, config: Config)
    requires Complete(config)
    ensures tool + " -i " + Quote(input) <= Command(tool, input, output, config)
    ensures var cmd, tail := Command(tool, input, output, config), " -y " + Quote(output);
      |tail| <= |cmd| && cmd[|cmd| - |tail|..] == tail
  {
    var before := tool + InputArgs(input) + FilterArgs(config) + VideoArgs(config) + AudioArgs(config);
    var tail := OutputArgs(output);
    assert Command(tool, input, output, config) == before + tail;
    assert (before + tail)[|before|..] == tail;
  }

  /** The command reads the configuration only through its four fields, so
      keys that the override merge adds leave it unchanged. */
  lemma CommandReadsFourFields(tool: string, input: string, output: string, config: Config, other: Config)
    requires Complete(config) && Complete(other)
    requires config[ResKey] == other[ResKey] && config[FpsKey] == other[FpsKey]
    requires config[VBitrateKey] == other[VBitrateKey] && config[ABitrateKey] == other[ABitrateKey]
    ensures Command(tool, input, output, config) == Command(tool, input, output, other)
  {
  }

  /** The filter first sets the frame rate, then scales to the resolution with
      nearest-neighbour sampling. */
  lemma CommandFilter(tool: string, input: string, output: string, config: Config)
    requires Complete(config)
    ensures Occurs(" -vf " + Quote("fps=" + config[FpsKey] + ",scale=" + config[ResKey] + ":flags=neighbor"),
                   Command(tool, input, output, config))
  {
    var before := tool + InputArgs(input);
    var after := VideoArgs(config) + AudioArgs(config) + OutputArgs(output);
    assert Command(tool, input, output, config) == before + FilterArgs(config) + after;
    OccursBetween(before, FilterArgs(config), after);
  }

  /** The video is H.264 with the configured bitrate as both target and cap,
      and a fixed 500k buffer. */
  lemma CommandVideoRate(tool: string, input: string, output: string, config: Config)
    requires Complete(config)
    ensures Occurs(" -vcodec libx264 -b:v " + config[VBitrateKey] + " -maxrate " + config[VBitrateKey]
                   + " -bufsize 500k", Command(tool, input, output, config))
  {
    var before := tool + InputArgs(input) + FilterArgs(config);
    var after := AudioArgs(config) + OutputArgs(output);
    assert Command(tool, input, output, config) == before + VideoArgs(config) + after;
    OccursBetween(before, VideoArgs(config), after);
  }

  /** The audio is MP3 at the configured bitrate, resampled to 22050 Hz mono. */
  lemma CommandAudio(tool: string, input: string, output: string, config: Config)
    requires Complete(config)
    ensures Occurs(" -acodec libmp3lame -b:a " + config[ABitrateKey] + " -ar 22050 -ac 1",
                   Command(tool, input, output, config))
  {
    var before := tool + InputArgs(input) + FilterArgs(config) + VideoArgs(config);
    OccursBetween(before, AudioArgs(config), OutputArgs(output));
  }

  // ---------------------------------------------------------------------------
  // Locating ffmpeg

  /** What happened when `ffmpeg -version` was run by bare name: the executable
      was not found on PATH, or it ran and exited with some status. */
  datatype ProbeResult = ExecutableNotFound | Exited(status: int)

  const BareTool := "ffmpeg"

  /** The probe's command line. */
  const ProbeCommand := "ffmpeg -version"

  /** The Windows installation paths tried, in order, when the probe fails. */
  const CommonPaths: seq<string> := [
    @"C:\Program Files\DownloadHelper CoApp\ffmpeg.exe",
    @"C:\Program Files\ffmpeg\bin\ffmpeg.exe",
    @"C:\ffmpeg\bin\ffmpeg.exe",
    @"C:\Program Data\chocolatey\bin\ffmpeg.exe"
  ]

  /** The first of `paths` that exists. */
  function FirstExisting(paths: seq<string>, existing: set<string>): (r: Option<string>)
    ensures r.Some? ==> r.value in paths && r.value in existing
  {
    if paths == [] then None
    else if paths[0] in existing then Some(paths[0])
    else FirstExisting(paths[1..], existing)
  }

  /** `FirstExisting` finds an existing path exactly when there is one, and
      finds the earliest. */
  lemma {:induction false} FirstExistingIsFirstMatch(paths: seq<string>, existing: set<string>)
    ensures FirstExisting(paths, existing).None? <==> forall i :: 0 <= i < |paths| ==> paths[i] !in existing
    ensures forall i :: 0 <= i < |paths| && paths[i] in existing && (forall j :: 0 <= j < i ==> paths[j] !in existing) ==>
      FirstExisting(paths, existing) == Some(paths[i])
  {
    if paths != [] {
      FirstExistingIsFirstMatch(paths[1..], existing);
      forall i | 0 < i < |paths|
        ensures paths[i] == paths[1..][i - 1]
      {
      }
    }
  }

  /** The location `find_ffmpeg` returns. */
  function Locate(probe: ProbeResult, existing: set<string>): (tool: Option<string>)
    ensures tool.Some? ==>
      tool.value == BareTool ||
      exists i :: 0 <= i < |CommonPaths| && CommonPaths[i] in existing && tool.value == Quote(CommonPaths[i])
  {
    if probe.Exited? then Some(BareTool)
    else match FirstExisting(CommonPaths, existing)
      case None => None
      case Some(path) => Some(Quote(path))
  }

  /** The search order: the bare name whenever the probe ran, whatever its exit
      status; else the first existing common path, quoted; else nothing. */
  lemma LocateSearchOrder(probe: ProbeResult, existing: set<string>, i: int)
    ensures probe.Exited? ==> Locate(probe, existing) == Some("ffmpeg")
    ensures probe.ExecutableNotFound? && 0 <= i < |CommonPaths| && CommonPaths[i] in existing &&
            (forall j :: 0 <= j < i ==> CommonPaths[j] !in existing) ==>
      Locate(probe, existing) == Some("\"" + CommonPaths[i] + "\"")
    ensures probe.ExecutableNotFound? ==>
      (Locate(probe, existing).None? <==> forall j :: 0 <= j < |CommonPaths| ==> CommonPaths[j] !in existing)
    ensures Locate(probe, existing).Some? ==> Locate(probe, existing).value != ""
  {
    FirstExistingIsFirstMatch(CommonPaths, existing);
  }

  /** `find_ffmpeg`: the PATH probe, then the common paths with an early return. */
  method FindFfmpeg(probe: ProbeResult, existing: set<string>) returns (tool: Option<string>)
    ensures tool == Locate(probe, existing)
  {
    if probe.Exited? {
      return Some(BareTool);
    }
    var i := 0;
    while i < |CommonPaths|
      invariant 0 <= i <= |CommonPaths|
      invariant FirstExisting(CommonPaths, existing) == FirstExisting(CommonPaths[i..], existing)
    {
      if CommonPaths[i] in existing {
        return Some(Quote(CommonPaths[i]));
      }
      assert CommonPaths[i..][1..] == CommonPaths[i + 1..];
      i := i + 1;
    }
    return None;
  }

  // ---------------------------------------------------------------------------
  // Conversion

  /** How a conversion ends.  A failed conversion is reported, not raised. */
  datatype Outcome =
    | MissingInput
    | ToolNotFound
    | Converted(command: string)
    | ConversionFailed(command: string, exitStatus: int)

  /**
   * `convert_to_meme_quality`.  Besides the outcome it returns the command
   * lines it tried to start, in order: the ffmpeg probe and then the
   * conversion command.
   */
  method ConvertToMemeQuality(inputPath: string, outputPath: string, quality: string, custom: Option<Overrides>,
                              existing: set<string>, probe: ProbeResult, exitStatus: int)
    returns (outcome: Outcome, attempts: seq<string>)
    // a missing input stops everything, before ffmpeg is even looked for
    ensures inputPath !in existing ==> outcome == MissingInput && attempts == []
    // a missing ffmpeg stops before any command is built or run
    ensures inputPath in existing && Locate(probe, existing).None? ==>
      outcome == ToolNotFound && attempts == [ProbeCommand]
    // otherwise exactly one conversion runs, with the merged configuration
    ensures inputPath in existing && Locate(probe, existing).Some? ==>
      var cmd := Command(Locate(probe, existing).value, inputPath, outputPath, Merged(SelectPreset(quality), custom));
      && attempts == [ProbeCommand, cmd]
      && outcome == if exitStatus == 0 then Converted(cmd) else ConversionFailed(cmd, exitStatus)
  {
    attempts := [];
    if inputPath !in existing {
      return MissingInput, attempts;
    }

    attempts := attempts + [ProbeCommand];
    var ffmpegPath := FindFfmpeg(probe, existing);
    if ffmpegPath.None? {
      return ToolNotFound, attempts;
    }

    var config := SelectPreset(quality);
    config := ApplyOverrides(config, custom);

    var command := Command(ffmpegPath.value, inputPath, outputPath, config);
    attempts := attempts + [command];
    if exitStatus == 0 {
      outcome := Converted(command);
    } else {
      outcome := ConversionFailed(command, exitStatus);
    }
  }
}
