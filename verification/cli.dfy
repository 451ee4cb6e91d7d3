/**
 * The script's entry point: which input path is used, which output path is
 * derived when none is given, which overrides are passed on, and the exit
 * status of the run.  Parsing by `argparse` is not modelled; its parsed
 * fields are the input.
 */
module Cli {
  import opened Wrappers
  import opened Converter
  import PathModel

  /** The parsed command-line fields; an absent option is `None`. */
  datatype Args = Args(
    inputPos: Option<string>,
    inputFlag: Option<string>,
    output: Option<string>,
    quality: string,
    res: Option<string>,
    fps: Option<string>,
    vbit: Option<string>,
    abit: Option<string>)

  /** What the entry point hands to the converter. */
  datatype Request = Request(input: string, output: string, quality: string, custom: Overrides)

  const OutSuffix := "_out.mp4"

  /** The input path: the `-i` flag when it is given and non-empty, otherwise
      the positional argument. */
  function ChooseInput(args: Args): (input: Option<string>)
    ensures IsSet(input) <==> IsSet(args.inputFlag) || IsSet(args.inputPos)
    ensures IsSet(args.inputFlag) ==> input == args.inputFlag
    ensures IsSet(input) && !IsSet(args.inputFlag) ==> input == args.inputPos
  {
    if IsSet(args.inputFlag) then args.inputFlag else args.inputPos
  }

  /** The default output path: the input with its extension (if any) dropped,
      followed by `_out.mp4`. */
  function DefaultOutput(input: string, seps: set<char>): (output: string)
    ensures |OutSuffix| <= |output| && output[|output| - |OutSuffix|..] == OutSuffix
    ensures output[..|output| - |OutSuffix|] <= input
    ensures var dropped := input[|output| - |OutSuffix|..];
      dropped == [] || (dropped[0] == '.' && forall k :: 0 < k < |dropped| ==> dropped[k] != '.' && dropped[k] !in seps)
    // the extension is dropped exactly when the final component has a dot after a non-dot character
    ensures var dropped := input[|output| - |OutSuffix|..];
      dropped == [] <==>
        forall d, k :: PathModel.RFind(input, seps) < k < d < |input| && input[d] == '.' ==> input[k] == '.'
  {
    var (root, ext) := PathModel.SplitExt(input, seps);
    root + OutSuffix
  }

  /** Lines 107-123: the request built from the parsed fields, or `None` when
      there is no input and the script prints its usage. */
  function ResolveArgs(args: Args, seps: set<char>): (r: Option<Request>)
    ensures r.None? <==> !IsSet(args.inputFlag) && !IsSet(args.inputPos)
    ensures r.Some? ==> Some(r.value.input) == ChooseInput(args) && r.value.input != ""
    ensures r.Some? && IsSet(args.output) ==> r.value.output == args.output.value
    ensures r.Some? && !IsSet(args.output) ==> r.value.output == DefaultOutput(r.value.input, seps)
    ensures r.Some? ==> r.value.quality == args.quality
    ensures r.Some? ==> r.value.custom.Keys == {ResKey, FpsKey, VBitrateKey, ABitrateKey}
    ensures r.Some? ==> r.value.custom[ResKey] == args.res && r.value.custom[FpsKey] == args.fps &&
                        r.value.custom[VBitrateKey] == args.vbit && r.value.custom[ABitrateKey] == args.abit
  {
    var inputFile := ChooseInput(args);
    if !IsSet(inputFile) then None
    else
      var outputFile := if IsSet(args.output) then args.output.value else DefaultOutput(inputFile.value, seps);
      var custom := map[ResKey := args.res, FpsKey := args.fps, VBitrateKey := args.vbit, ABitrateKey := args.abit];
      Some(Request(inputFile.value, outputFile, args.quality, custom))
  }

  /**
   * The whole script: exit status 1 after printing usage when no input is
   * given; otherwise one call of the converter on the resolved request, after
   * which the script ends normally (status 0) whatever the conversion's
   * outcome.  `attempts` are the command lines the converter tried to start.
   */
  method RunScript(args: Args, seps: set<char>, existing: set<string>, probe: ProbeResult, exitStatus: int)
    returns (status: int, outcome: Option<Outcome>, attempts: seq<string>)
    ensures ResolveArgs(args, seps).None? ==> status == 1 && outcome.None? && attempts == []
    ensures ResolveArgs(args, seps).Some? ==> status == 0 && outcome.Some?
    ensures ResolveArgs(args, seps).Some? && ResolveArgs(args, seps).value.input !in existing ==>
      outcome == Some(MissingInput) && attempts == []
    ensures ResolveArgs(args, seps).Some? && ResolveArgs(args, seps).value.input in existing &&
            Locate(probe, existing).None? ==>
      outcome == Some(ToolNotFound) && attempts == [ProbeCommand]
    ensures ResolveArgs(args, seps).Some? && ResolveArgs(args, seps).value.input in existing &&
            Locate(probe, existing).Some? ==>
      var request := ResolveArgs(args, seps).value;
      var cmd := Command(Locate(probe, existing).value, request.input, request.output,
                         Merged(SelectPreset(request.quality), Some(request.custom)));
      && attempts == [ProbeCommand, cmd]
      && outcome == Some(if exitStatus == 0 then Converted(cmd) else ConversionFailed(cmd, exitStatus))
  {
    var request := ResolveArgs(args, seps);
    if request.None? {
      return 1, None, [];
    }
    var r := request.value;
    var result, tried := ConvertToMemeQuality(r.input, r.output, r.quality, Some(r.custom), existing, probe, exitStatus);
    return 0, Some(result), tried;
  }

  /** Default output derivation on two sample names. */
  lemma DefaultOutputExamples()
    ensures DefaultOutput("clip.mov", {'/'}) == "clip_out.mp4"
    ensures DefaultOutput("test.mp4", {'\\', '/'}) == "test_out.mp4"
  {
    var clip, test := "clip.mov", "test.mp4";
    assert clip[4] == '.' && clip[5] != '.' && clip[6] != '.' && clip[7] != '.';
    assert PathModel.RFind(clip, {'/'}) == -1 && PathModel.RFind(clip, {'.'}) == 4;
    assert clip[0] != '.' && clip[..4] == "clip";
    assert PathModel.SplitExt(clip, {'/'}).0 == "clip";
    assert test[4] == '.' && test[5] != '.' && test[6] != '.' && test[7] != '.';
    assert PathModel.RFind(test, {'\\', '/'}) == -1 && PathModel.RFind(test, {'.'}) == 4;
    assert test[0] != '.' && test[..4] == "test";
    assert PathModel.SplitExt(test, {'\\', '/'}).0 == "test";
  }
}
