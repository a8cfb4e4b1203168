# GW-LSS core in Dafny

This project models the discrete core of GW-LSS. GW-LSS evaluates
large-scale-structure fields from the CSiBORG simulations at the posterior
samples of a gravitational-wave event. The model covers three parts:

- **`gwlss.Paths`** (module `GwlssPaths`):
  - the constructor's dict check;
  - the `paths[name]` lookup, which raises AttributeError for a missing name;
  - the event dispatch of `load_event`;
  - the deterministic file name and path built by `evaluated_field`. The name
    has an optional `rand_` prefix, an optional `_rsp` suffix on the kind, and
    a `str(nsim).zfill(5)` simulation tag. With a positive smoothing scale,
    every `.npz` in the name is rewritten.
- **`gwlss.utils.load_event_field`** (module `GwlssUtils`). This is the loop
  over the 101 simulations 7444, 7468, …, 9844. On the first pass it checks
  the requested smoothing scales against the first file, selects the matching
  columns `ks`, and allocates a zero-filled `(101, nsamples, nsmooth)` array.
  On every pass it writes `field_val[:, ks]` of the current file into its row.
  This follows numpy's broadcasting rule, so the write can fail with
  ValueError; an out-of-range column raises IndexError.
  - The loop is an imperative method over an `array3<real>`.
  - It is proved against a functional specification, `AssembleSpec`, and the
    properties of the assembly are proved about that specification.
- **The plotting helpers** `str2label`, `str2label_units` and `get_nsims`
  (module `PlotUtils`).

Python's own text operations that the name depends on live in module `Text`:

- `str(int)` and `int(str)`;
- `str.zfill`;
- `str.replace`, as a left-to-right scan with non-overlapping matches;
- `posixpath.join`, where an absolute second part replaces the first.

Module `PyErrors` holds the exceptions, a `Result` type, and `Collect`.
`Collect` gives the "stop at the first raised exception" behaviour of a loop.

The name gets a `rand_` prefix when `is_rand` is set, and a positive
smoothing scale rewrites every `.npz` in the name rather than appending a
suffix (gwlss/paths.py:87-94).

`load_event_field` calls `paths.evaluated_field(event, kind, nsim, grid, MAS,
in_rsp)`. This passes `in_rsp` in the `is_rand` position, so:

- the name's own `in_rsp` keeps its default `True`;
- with the default `in_rsp=True`, every file read is named `rand_…_rsp…`.

Whether this was intended cannot be told from the code. The model keeps the
call as written (`GwlssUtils.FieldPath`) and proves the consequence
(`GwlssUtils.FieldFileNameShift`).

## Model

| member | source | states |
|---|---|---|
| PyErrors.Collect | gwlss/utils.py:34-52 | the values of a run of steps, one per step, when no step raises |
| PyErrors.CollectCharacterised | gwlss/utils.py:34-52 | the run succeeds exactly when every step succeeds, the values are kept in order, and an error is the one of the first failing step, all earlier steps having succeeded |
| PyErrors.CollectFirstError | gwlss/utils.py:34-52 | when every step before `n` succeeds and step `n` raises, the run raises exactly that error |
| Text.NatToStr | gwlss/paths.py:91 | `str(n)` of a natural number is a non-empty digit string that starts with '0' only for 0 |
| Text.IntToStr | gwlss/paths.py:91 | `str(n)` starts with '-' exactly for negative n and is all digits otherwise |
| Text.IntToStrRoundTrip | gwlss/paths.py:91 | `int(str(n)) == n` for every integer |
| Text.ZFill | gwlss/paths.py:91 | `zfill` gives length max(len, width), leaves long strings unchanged, and keeps a sign in front of the padding |
| Text.ZFillRoundTrip | gwlss/paths.py:91 | `int(str(n).zfill(w)) == n` for every integer n and width w |
| Text.ParseInt | gwlss/paths.py:91 | `int(s)` of a string of digits with an optional leading '-' succeeds exactly for such strings, and the sign of the value follows the '-' |
| Text.ZFillNegativeRoundTrip | gwlss/paths.py:91 | for a negative n that needs padding, the padding goes after the sign (`"-" + zeros + str(-n)`) and `int` still reads n back |
| Text.StripLeadingZeros | gwlss/paths.py:91 | the result is a suffix of the input that does not start with '0', and everything removed in front of it is '0' |
| Text.ZFillStripRoundTrip | gwlss/paths.py:91 | for n > 0, removing the leading zeros of `str(n).zfill(w)` gives back `str(n)` |
| Text.Replace | gwlss/paths.py:94 | `replace` keeps the length when the replacement is as long as the pattern, and never shortens the text when it is longer |
| Text.ReplaceKeepsTail | gwlss/paths.py:94 | text whose characters never occur in the pattern passes through `replace` unchanged at the end of a string, so only the part before it is rewritten |
| Text.ReplaceWithoutOccurrence | gwlss/paths.py:94 | `replace` leaves text without an occurrence of the pattern unchanged |
| Text.ReplaceAround | gwlss/paths.py:94 | an occurrence of a non-self-overlapping pattern is always replaced, and the text on either side is rewritten independently |
| Text.ReplaceFirstCharacter | gwlss/paths.py:94 | for a non-empty text and a non-empty replacement, the result starts with the text's first character or the replacement's |
| Text.ReplaceAtEnd | gwlss/paths.py:94 | for a non-self-overlapping pattern such as ".npz", a text ending in the pattern ends in the replacement afterwards |
| Text.Join | gwlss/paths.py:95 | `join(a, b)` ends with `b`, and is `a + "/" + b` for a relative `b` and a non-empty `a` not ending in '/' |
| Text.JoinInjective | gwlss/paths.py:95 | joining two names of the same kind (relative or absolute) onto one directory keeps different names apart |
| GwlssPaths.NewPaths | gwlss/paths.py:32-34 | the constructor succeeds exactly for a dict and stores it; anything else raises AssertionError |
| GwlssPaths.GetItem | gwlss/paths.py:97-101 | `paths[name]` returns the stored value exactly when the name is present, and otherwise raises AttributeError with the "not found in `paths_dict`" message |
| GwlssPaths.LoadEvent | gwlss/paths.py:49-52 | any event but "GW170817" raises KeyError; "GW170817" opens the "samples" group of the file stored under "GW170817_darkPE", and raises AttributeError when that key is missing |
| GwlssPaths.SimulationTag | gwlss/paths.py:91 | `str(nsim).zfill(5)` has at least five characters, only digits and '-', and `int` reads `nsim` back from it |
| GwlssPaths.StemTail | gwlss/paths.py:91 | `{tag}_grid{grid}` contains no character of ".npz" |
| GwlssPaths.Stem | gwlss/paths.py:87-91 | the name before ".npz" starts with `[rand_]{event}_{kind}[_rsp]_{MAS}_`, and no character after that head occurs in ".npz" |
| GwlssPaths.NameOfStem | gwlss/paths.py:91-94 | the name built from a stem always ends in ".npz" |
| GwlssPaths.FileName | gwlss/paths.py:87-94 | the file name always ends in ".npz" |
| GwlssPaths.EvaluatedField | gwlss/paths.py:83-95 | the path exists exactly when "dumpdir" is present (otherwise AttributeError) and is `join(join(dumpdir, "evaluated"), fname)` |
| GwlssPaths.UnsmoothedFileName | gwlss/paths.py:87-91 | without a positive scale the name is exactly `[rand_]{event}_{kind}[_rsp]_{MAS}_{zfill(nsim,5)}_grid{grid}.npz` |
| GwlssPaths.SmoothedFileName | gwlss/paths.py:92-94 | with a positive scale every ".npz" of the stem is rewritten and the name ends in `smooth{scale}.npz`; a stem without ".npz" just gets that suffix |
| GwlssPaths.SmoothedName | gwlss/paths.py:92-94 | the same two facts for any stem |
| GwlssPaths.RandFlagPrefixesEvent | gwlss/paths.py:87-88 | `is_rand` only prefixes "rand_" to the event |
| GwlssPaths.RspFlagSuffixesKind | gwlss/paths.py:89-90 | `in_rsp` only appends "_rsp" to the kind |
| GwlssPaths.SimulationTagRoundTrip | gwlss/paths.py:91 | for a positive index, stripping the zeros of the tag gives back `str(nsim)` |
| GwlssPaths.SimulationTagOfFourDigits | gwlss/paths.py:91 | a four-digit index gets exactly one leading zero |
| GwlssPaths.StemTailSeparatesSimulations | gwlss/paths.py:91 | two simulations on the same grid never share `{tag}_grid{grid}` |
| GwlssPaths.FileNameSeparatesSimulations | gwlss/paths.py:87-94 | two simulations with the same other arguments never share a name, with or without smoothing |
| GwlssPaths.EvaluatedFieldLayout | gwlss/paths.py:83-95 | for a non-empty `dumpdir` not ending in '/' and an event not starting with '/', the path is `{dumpdir}/evaluated/{fname}` |
| GwlssPaths.EvaluatedJoin | gwlss/paths.py:83-95 | the two joins of a plain directory and a relative name give `{d}/evaluated/{fname}` |
| GwlssUtils.NSimsFacts | gwlss/utils.py:32 | 101 simulations `7444 + 24 n`, strictly increasing from 7444 to 9844 |
| GwlssUtils.FieldPath | gwlss/utils.py:36 | the path of simulation `nsim` exists exactly when "dumpdir" is present (otherwise AttributeError) and is `join(join(dumpdir, "evaluated"), fname)` of the shifted call |
| GwlssUtils.FieldFileNameShift | gwlss/utils.py:36 | the name read is `[rand_ if in_rsp]{event}_{kind}_rsp_{MAS}_{tag}_grid{grid}.npz`: `in_rsp` lands in the `is_rand` slot |
| GwlssUtils.FieldPathsDistinct | gwlss/utils.py:32-36 | the 101 paths read are pairwise different |
| GwlssUtils.FirstMissing | gwlss/utils.py:42-45 | no scale is reported exactly when every requested scale is in the file; a reported scale is the first missing one in request order |
| GwlssUtils.Selection | gwlss/utils.py:47 | `ks` holds, in strictly increasing file order, exactly the positions of the file's scales that were requested |
| GwlssUtils.FirstAtLeast | gwlss/utils.py:52 | no index is reported exactly when every column index is in range; a reported index is the first one in `ks` that is out of range |
| GwlssUtils.TakeColumns | gwlss/utils.py:52 | `field_val[:, ks]` succeeds exactly when every index is below the column count (otherwise IndexError), and gives the rows cut to the columns `ks` in order |
| GwlssUtils.Broadcast | gwlss/utils.py:52 | the block fits its slot exactly when each axis matches or is 1 (otherwise ValueError), and each slot cell takes the matching or the repeated source cell |
| GwlssUtils.RowBlock | gwlss/utils.py:52 | the row assignment succeeds exactly when every index of `ks` is a column of the file and the selected block broadcasts to the slot, and then writes a full `(nsamples, nsmooth)` block |
| GwlssUtils.RowBlockSelects | gwlss/utils.py:52 | when rows and columns match, the block written is exactly `field_val[i][ks[j]]` |
| GwlssUtils.RowAt | gwlss/utils.py:36-52 | the row of a simulation, when it succeeds, is a full block |
| GwlssUtils.Rows | gwlss/utils.py:34-52 | there is one row outcome per simulation |
| GwlssUtils.AssembleSpec | gwlss/utils.py:34-54 | a failed first path lookup raises that lookup's error, and a successful load has one block per simulation |
| GwlssUtils.LoadEventFieldSpec | gwlss/utils.py:5-54 | without "dumpdir" the first path lookup raises AttributeError, and a successful load has 101 blocks |
| GwlssUtils.DefaultCall | gwlss/utils.py:5-6 | with every default the files read are `rand_{event}_{kind}_rsp_PCS_{tag}_grid{grid}.npz`, and a successful load found the scales 0.0 to 4.0 in the first file and has five columns per block |
| GwlssUtils.AssembledField | gwlss/utils.py:42-52 | a successful load has 101 blocks, each shaped by the first file, and block `n` is what file `n` contributes under the first file's `ks` |
| GwlssUtils.AssemblySucceeds | gwlss/utils.py:42-52 | the load succeeds exactly when the first path lookup succeeds, every requested scale is in the first file, and every file's block fits |
| GwlssUtils.AssemblyOfFoundScales | gwlss/utils.py:47-52 | once every requested scale is found, the load succeeds exactly when every file's block fits |
| GwlssUtils.MissingScaleRaises | gwlss/utils.py:42-45 | a requested scale missing from the first file raises ValueError naming the first such scale, whatever the other files hold |
| GwlssUtils.SelectionSizeMismatchRaises | gwlss/utils.py:47-52 | when the first file has a column for each of its scales, a selection that is neither one column nor one per requested scale (for example a scale listed twice in the file) makes the first row raise ValueError |
| GwlssUtils.AssembledRowsAreSelectedColumns | gwlss/utils.py:47-52 | in a successful load, block `n` of a file with matching shape is `field_val[:, ks]` of that file |
| GwlssUtils.CheckScales | gwlss/utils.py:43-45 | the validation loop reports the first requested scale missing from the file, or none |
| GwlssUtils.Slab | gwlss/utils.py:52 | the slab `out[n, ...]` has the array's row and column counts |
| GwlssUtils.ZeroBlock | gwlss/utils.py:50 | a zero block has the requested shape |
| GwlssUtils.Zeros3 | gwlss/utils.py:49-50 | `np.zeros(shape)` is a fresh array of that shape whose every slab is zero |
| GwlssUtils.WriteBlock | gwlss/utils.py:52 | `out[n, ...] = block` makes slab `n` the block and leaves every other slab unchanged |
| GwlssUtils.AssembleSpecIsCollect | gwlss/utils.py:34-52 | after the first file passes the scale check, the load is the row-by-row run over all simulations |
| GwlssUtils.AssembleEventField | gwlss/utils.py:34-54 | the loop returns exactly when the specification succeeds, raises the specification's error otherwise, and returns a fresh `(101, nsamples, nsmooth)` array, `nsamples` being the first file's row count, whose every slab is the specified block |
| GwlssUtils.LoadEventField | gwlss/utils.py:5-54 | `load_event_field` with its arguments behaves as the specification with the shifted path call; a result means "dumpdir" was present and has the first file's row count |
| PlotUtils.Get | scripts_plots/plt_utils.py:41 | `dict.get` returns the entry or the default; a tuple raises AttributeError |
| PlotUtils.Str2Label | scripts_plots/plt_utils.py:23-41 | "density", "overdensity" and "potential" become `$\rho$`, `$\delta$` and `$\Phi$`; every other string is returned unchanged |
| PlotUtils.Str2LabelIdempotent | scripts_plots/plt_utils.py:38-41 | converting a label twice is the same as converting it once |
| PlotUtils.Str2LabelUnits | scripts_plots/plt_utils.py:44-60 | as written, every call raises AttributeError (`'tuple' object has no attribute 'get'`) |
| PlotUtils.Str2LabelUnitsAlwaysFails | scripts_plots/plt_utils.py:54-60 | no call returns the label its documentation promises |
| PlotUtils.Str2LabelUnitsIntended | scripts_plots/plt_utils.py:44-60 | with an empty dict every label is returned unchanged |
| PlotUtils.GetNsims | scripts_plots/plt_utils.py:63-80 | as written, the call succeeds exactly for a list starting with -1 and then returns the catalogue; an empty list raises IndexError and any other list raises NameError |
| PlotUtils.GetNsimsLosesExplicitList | scripts_plots/plt_utils.py:79-80 | `get_nsims([7444])` raises NameError instead of returning `[7444]` |
| PlotUtils.GetNsimsIntended | scripts_plots/plt_utils.py:63-80 | returning the argument fails only on the empty list, returns every explicit list, and expands a leading -1 to the catalogue |
| PlotUtils.GetNsimsCorrectionScope | scripts_plots/plt_utils.py:76-80 | the corrected helper differs from the code exactly on non-empty lists that do not start with -1 |

## Left out

- File I/O is not modelled: `np.load`, h5py's `File`, and the files' contents.
  - The contents are a function from path to `(val, smooth_scales)`, given as a parameter.
  - `load_event` returns the file name and group it would open.
- The directory side effects of `evaluated_field` are not modelled: `isdir`, `makedirs` and the `UserWarning`. They do not affect the path returned.
- The `tqdm` progress bar is not modelled. It only wraps the iteration.
- `str(float(x))` is a parameter `floatStr` (Python's float repr is not modelled). The model also takes the scale to be a real number.
- The branch of `get_nsims` that asks csiborgtools for the initial conditions is not modelled. Its result is a parameter `ics`.
- GwlssUtils.TakeColumns: `val` is taken to be two-dimensional and its dtype is not tracked. In the code, `np.zeros(shape, dtype=field_val.dtype)` (gwlss/utils.py:50) gives `out` the first file's dtype and the assignment at gwlss/utils.py:52 casts every later file's values to it; the model treats all values as reals, so neither the dtype choice nor that cast is modelled. The model reports the first out-of-range index, which may not be the one numpy names.
- GwlssUtils.AssemblySucceeds: the "exactly when" covers only files that can be read. The errors `np.load` itself raises (a missing file, a missing `"val"` or `"smooth_scales"` key) are not modelled; a path lookup that succeeds is taken to name a readable file.
- GwlssUtils.FirstMissing: scale membership is exact equality on real numbers (floating-point rounding and NaN are not modelled).
- Text.ParseInt: it accepts only an optional '-' and ASCII digits. It does not accept the whitespace, '+' or underscores that Python's `int()` also accepts.
- The other files of the repository are not part of this model:
  - the sky rotations (`gwlss/sky.py`);
  - the importance sampler (`gwlss/importance_sampler.py`);
  - the interpolation driver (`scripts/interp.py`);
  - the plotting scripts;
  - `gwlss/__init__.py`;
  - `setup.py`.

## Findings

| source | as written | input that shows it | evidently intended | confidence | as-written member | corrected member |
|---|---|---|---|---|---|---|
| scripts_plots/plt_utils.py:59-60 | `data = {},` binds a one-element tuple, and `data.get(label, label)` raises AttributeError | `str2label_units("density")` | an empty dict, so the label is returned unchanged, as the doc-comment says | high (not executed) | PlotUtils.Str2LabelUnitsAlwaysFails | PlotUtils.Str2LabelUnitsIntended |
| scripts_plots/plt_utils.py:79-80 | the else branch returns `args.nsims`, and `args` is not defined in the module, so it raises NameError | `get_nsims([7444])` | return the `nsims` argument | high (not executed) | PlotUtils.GetNsimsLosesExplicitList | PlotUtils.GetNsimsIntended |
