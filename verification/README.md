# LowQualityConverter: a Dafny model of the parameter assembly

LowQualityConverter is a command-line wrapper around ffmpeg. It turns a video
into "2000s meme quality" by cutting its resolution, frame rate and bitrates.
This project models the logic that `converter.py` runs before it hands work
to ffmpeg:

- which quality preset is chosen, and the fallback to `medium`;
- how user overrides are merged into the preset;
- the exact layout of the ffmpeg command line;
- the order in which ffmpeg is searched for;
- the fail-fast order of a conversion: the input must exist, then ffmpeg must
  be found, and only then is one command built and run;
- how the script picks its input path, derives a default output path and sets
  its exit status.

The host is passed in as values:

- `os.path.exists` is a set of existing paths;
- running `ffmpeg -version` by its bare name gives a `ProbeResult` (the
  executable was not found, or it ran and exited with some status);
- running the conversion command gives an exit status.

`ConvertToMemeQuality` also returns the command lines it tried to start, in
order. This shows which external processes a run reaches.

Files:

- `wrappers.dfy`: `Option`, which stands for Python's `None`-or-value.
- `path.dfy`: module `PathModel`, the `os.path.splitext` contract.
- `converter.dfy`: module `Converter`, covering `find_ffmpeg` and
  `convert_to_meme_quality`.
- `cli.dfy`: module `Cli`, the `__main__` block.

The `--output` help text (converter.py:97) gives the default output as
`input_meme.mp4`, but the code writes `<root>_out.mp4`; the model follows the
code. A found install path is always wrapped in double quotes
(converter.py:25), whether or not it contains spaces.

`Converter.Command` puts the command line together from its flag groups: the
input, the filter, the video flags, the audio flags and the output. The
resulting string is character for character the f-string at converter.py:80.

Configurations are string dictionaries (`map<string, string>`). The override
loop may add keys that no preset has, so a four-field record would not
capture it. Override values are `Option<string>`. As in Python, a value
counts only when it is truthy: neither `None` nor the empty string.

## Model

| member | source | states |
|---|---|---|
| `Converter.Presets` | converter.py:51-70 | the table has exactly the keys `low`, `medium` and `high`, and each entry has all four fields |
| `Converter.SelectPreset` | converter.py:51-72 | every quality name, known or not, yields a configuration with exactly the four fields `res`, `v_bitrate`, `a_bitrate`, `fps` |
| `Converter.PresetValues` | converter.py:51-70 | `low` is 176x144/30k/8k/8, `medium` is 320x240/80k/24k/12, `high` is 480x360/250k/48k/20 |
| `Converter.UnknownQualityIsMedium` | converter.py:72 | any name other than `low`, `medium` or `high` selects exactly the `medium` preset; `low` and `high` differ from it |
| `Converter.Merged` | converter.py:74-78 | the merge never drops a key of the preset |
| `Converter.MergedFieldwise` | converter.py:74-78 | with no custom config the preset is unchanged; a key with a truthy override gets the override; a key whose override is missing, `None` or empty keeps its preset value; no other key appears |
| `Converter.ApplyOverrides` | converter.py:74-78 | the loop that writes the truthy overrides one key at a time yields exactly `Merged` of the preset and the overrides |
| `Converter.Command` | converter.py:80 | the command string, the same text as the f-string; its contract says that it starts with the tool, then `-i "<input>"`; CommandEnds, CommandFilter, CommandVideoRate and CommandAudio state the rest of its layout |
| `Converter.CommandReadsFourFields` | converter.py:80 | two configurations that agree on `res`, `fps`, `v_bitrate` and `a_bitrate` give the same command, so keys that overrides add have no effect |
| `Converter.CommandEnds` | converter.py:80 | the command begins with the tool location followed by `-i "<input>"` and ends with `-y "<output>"` |
| `Converter.CommandFilter` | converter.py:80 | the command contains `-vf "fps=<fps>,scale=<res>:flags=neighbor"`: frame rate first, then nearest-neighbour scaling |
| `Converter.CommandVideoRate` | converter.py:80 | the command contains `-vcodec libx264 -b:v <v_bitrate> -maxrate <v_bitrate> -bufsize 500k`: the video bitrate is used twice, and the buffer is fixed |
| `Converter.CommandAudio` | converter.py:80 | the command contains `-acodec libmp3lame -b:a <a_bitrate> -ar 22050 -ac 1` |
| `Converter.FirstExisting` | converter.py:23-27 | a path found by the scan is one of the listed paths and exists |
| `Converter.FirstExistingIsFirstMatch` | converter.py:23-27 | the path scan finds nothing exactly when no listed path exists; otherwise it finds the earliest existing path in list order |
| `Converter.Locate` | converter.py:7-27 | a found location is either the bare `ffmpeg` or an existing common path wrapped in `"` |
| `Converter.LocateSearchOrder` | converter.py:7-27 | the bare `ffmpeg` whenever the PATH probe ran, whatever its exit status; otherwise the first existing common path wrapped in `"`; `None` exactly when none exists; a found location is never empty |
| `Converter.FindFfmpeg` | converter.py:7-27 | the probe followed by the early-return loop over the common paths returns exactly `Locate` |
| `Converter.ConvertToMemeQuality` | converter.py:30-90 | a missing input gives `MissingInput`, and nothing is probed, built or run; a missing tool gives `ToolNotFound` after the probe, and nothing is built or run; otherwise exactly one command is run, built from the located tool and the merged configuration; exit 0 gives `Converted`, and any other status gives `ConversionFailed` |
| `PathModel.SplitExt` | converter.py:115 | root + extension is the path; the extension is empty or is the last dot of the final component followed by no dot or separator, and only when that component has a non-dot character before the dot |
| `Cli.ChooseInput` | converter.py:107 | a truthy `-i` value wins; otherwise the positional value is used; the result is usable exactly when one of the two is truthy |
| `Cli.DefaultOutput` | converter.py:114-116 | the default output ends in `_out.mp4`; what precedes it is a prefix of the input; what the prefix drops is `splitext`'s extension: empty exactly when no dot of the final path component follows a non-dot character, and otherwise the last dot of that component with everything after it |
| `Cli.DefaultOutputExamples` | converter.py:114-116 | `clip.mov` gives `clip_out.mp4`, and `test.mp4` gives `test_out.mp4` |
| `Cli.ResolveArgs` | converter.py:107-123 | there is no request exactly when neither input is truthy; otherwise the input is the chosen one and non-empty, the output is the truthy `-o` value or the default, the quality is passed through, and the custom config holds the four override fields |
| `Cli.RunScript` | converter.py:107-125 | with no input the exit status is 1 and nothing is started; otherwise the status is 0 whatever the conversion's outcome, and the converter runs on the resolved request: a missing input gives `MissingInput` and nothing is started; a missing tool gives `ToolNotFound` after the probe; otherwise the one command run is built from the located tool, the request's input and output (the default output when `-o` is absent) and its quality and four overrides merged into the preset, and its exit status decides `Converted` or `ConversionFailed` |

## Left out

- Running processes (`subprocess.run`, converter.py:10 and 87) and ffmpeg itself: the probe outcome and the conversion's exit status are inputs.
- The filesystem: `os.path.exists` (converter.py:24 and 32) is a set of existing paths.
- Errors raised by the probe other than "executable not found", for example a permission error: they propagate in Python and are not modelled.
- All console output (the messages, settings summary and install guidance at converter.py:33, 38-47, 82-84, 88 and 90).
- `argparse` (converter.py:94-105 and 111): option spellings, `choices` validation and the help text are not modelled; the parsed fields are the input.
- The shell: how it splits and interprets the command string, and quoting or injection problems. Only the string that is produced is modelled.
- `PathModel.SplitExt`: the path separators are a parameter, `{'/'}` on POSIX and `{'\\', '/'}` on Windows; the model does not fix the host.
- Override values that are not strings or `None`: the script only passes strings or `None`.
- The default arguments `quality='medium'` and `custom_config=None` of `convert_to_meme_quality` (converter.py:30): `ConvertToMemeQuality` takes all four arguments explicitly, as the only caller (converter.py:125) passes them all.
- Python's sharing of the preset dictionary with `config` during the in-place merge: the preset table is rebuilt on every call, so nothing outside the call can observe it.
