/** `gwlss.utils.load_event_field`: read one pre-computed file per simulation,
    check the requested smoothing scales against the first file, and stack the
    selected columns of every file into a `(101, nsamples, nsmooth)` array. */
module GwlssUtils {
  import opened PyErrors
  import opened Text
  import opened GwlssPaths

  // ---------------------------------------------------------------------------
  // The simulations

  const NumSims: nat := 101

  /** `[7444 + n * 24 for n in range(101)]`. */
  const NSims: seq<int> := seq(NumSims, n => 7444 + n * 24)

  lemma NSimsFacts()
    ensures |NSims| == NumSims && NSims[0] == 7444 && NSims[NumSims - 1] == 9844
    ensures forall n :: 0 <= n < NumSims ==> NSims[n] == 7444 + 24 * n
    ensures forall n, m :: 0 <= n < m < NumSims ==> NSims[n] < NSims[m]
  {
  }

  // ---------------------------------------------------------------------------
  // The files

  /** A 2-D numpy array given by its rows, each `cols` long. */
  datatype Matrix = Matrix(rows: seq<seq<real>>, cols: nat)

  predicate Rectangular(m: Matrix)
  {
    forall i :: 0 <= i < |m.rows| ==> |m.rows[i]| == m.cols
  }

  type Array2 = m: Matrix | Rectangular(m) witness Matrix([], 0)

  /** The two arrays of one pre-computed file: `f["val"]` and `f["smooth_scales"]`. */
  datatype FieldFile = FieldFile(val: Array2, smoothScales: seq<real>)

  /** The arguments of `load_event_field` (the `paths` object included). */
  datatype Request = Request(event: string, kind: string, paths: Paths, grid: int,
                             mas: string, inRsp: bool, smoothScales: seq<real>)

  const DefaultSmoothScales: seq<real> := [0.0, 1.0, 2.0, 3.0, 4.0]

  /** The file read for simulation `nsim`. The call passes `in_rsp` in the
      `is_rand` position, so `in_rsp` of the name keeps its default (True) and
      no smoothing scale is given (the number formatter is then never used). */
  function FieldPath(req: Request, nsim: int): (r: Result<string>)
    ensures r.Ok? <==> "dumpdir" in req.paths.pathsDict
    ensures r.Err? ==> r == Err(AttributeError(PathNotFound("dumpdir")))
    ensures r.Ok? ==> r.value == Join(Join(req.paths.pathsDict["dumpdir"], "evaluated"),
                                      FieldFileName(req, nsim))
  {
    EvaluatedField(req.paths, req.event, req.kind, nsim, req.grid, req.mas,
                   req.inRsp, true, NoScale, _ => "")
  }

  /** The file name inside `FieldPath`. */
  function FieldFileName(req: Request, nsim: int): string
  {
    FileName(req.event, req.kind, nsim, req.grid, req.mas, req.inRsp, true, NoScale, _ => "")
  }

  /** Because of the shifted argument, `in_rsp` decides the "rand_" prefix, and
      every name read carries "_rsp" right after the kind. */
  lemma FieldFileNameShift(req: Request, nsim: int)
    ensures FieldFileName(req, nsim)
         == (if req.inRsp then "rand_" + req.event else req.event) + "_" + (req.kind + "_rsp")
            + "_" + req.mas + "_" + (ZFill(IntToStr(nsim), 5) + "_grid" + IntToStr(req.grid)) + ".npz"
  {
    UnsmoothedFileName(req.event, req.kind, nsim, req.grid, req.mas, req.inRsp, true, NoScale, _ => "");
  }

  /** The 101 files read are pairwise different. */
  lemma FieldPathsDistinct(req: Request, n: nat, m: nat)
    requires n < m < NumSims
    requires "dumpdir" in req.paths.pathsDict
    ensures FieldPath(req, NSims[n]) != FieldPath(req, NSims[m])
  {
    var f := _ => "";
    var dir := Join(req.paths.pathsDict["dumpdir"], "evaluated");
    var a, b := FieldFileName(req, NSims[n]), FieldFileName(req, NSims[m]);
    var head := StemHead(req.event, req.kind, req.mas, req.inRsp, true);
    assert a[0] == head[0] == b[0];
    if FieldPath(req, NSims[n]) == FieldPath(req, NSims[m]) {
      JoinInjective(dir, a, b);
      FileNameSeparatesSimulations(req.event, req.kind, NSims[n], NSims[m], req.grid, req.mas,
                                   req.inRsp, true, NoScale, f);
    }
  }

  // ---------------------------------------------------------------------------
  // Checking and selecting the smoothing scales

  /** The first requested scale (in request order) that the file lacks. */
  function FirstMissing(wanted: seq<real>, scales: seq<real>): (r: Option<real>)
    ensures r.None? <==> forall i :: 0 <= i < |wanted| ==> wanted[i] in scales
    ensures r.Some? ==> exists i :: 0 <= i < |wanted| && wanted[i] == r.value
                         && r.value !in scales
                         && forall j :: 0 <= j < i ==> wanted[j] in scales
  {
    if wanted == [] then None
    else if wanted[0] !in scales then Some(wanted[0])
    else
      var r := FirstMissing(wanted[1..], scales);
      assert forall i :: 1 <= i < |wanted| ==> wanted[i] == wanted[1..][i - 1];
      r
  }

  /** `np.where(np.isin(scales, wanted))[0]`: in file order, the positions of
      the file's scales that were requested. */
  function Selection(scales: seq<real>, wanted: seq<real>): (ks: seq<nat>)
    ensures forall j :: 0 <= j < |ks| ==> ks[j] < |scales| && scales[ks[j]] in wanted
    ensures forall i, j :: 0 <= i < j < |ks| ==> ks[i] < ks[j]
    ensures forall i :: 0 <= i < |scales| && scales[i] in wanted ==> i in ks
  {
    if scales == [] then []
    else
      var last := |scales| - 1;
      var ks := Selection(scales[..last], wanted);
      if scales[last] in wanted then ks + [last] else ks
  }

  // ---------------------------------------------------------------------------
  // One row of the output: out[n, ...] = field_val[:, ks]

  /** The first index in `ks` that is not below `bound`. */
  function FirstAtLeast(ks: seq<nat>, bound: nat): (r: Option<nat>)
    ensures r.None? <==> forall j :: 0 <= j < |ks| ==> ks[j] < bound
    ensures r.Some? ==> r.value in ks && r.value >= bound
    ensures r.Some? ==> exists i :: 0 <= i < |ks| && ks[i] == r.value
                                     && forall j :: 0 <= j < i ==> ks[j] < bound
  {
    if ks == [] then None
    else if ks[0] >= bound then Some(ks[0])
    else
      var r := FirstAtLeast(ks[1..], bound);
      assert forall j :: 1 <= j < |ks| ==> ks[j] == ks[1..][j - 1];
      r
  }

  predicate IsBlock(b: seq<seq<real>>, rows: nat, cols: nat)
  {
    |b| == rows && forall i :: 0 <= i < rows ==> |b[i]| == cols
  }

  /** `field_val[:, ks]`: every row restricted to the columns `ks`, in the order
      of `ks`; an index past the last column raises IndexError. */
  function TakeColumns(val: Array2, ks: seq<nat>): (r: Result<seq<seq<real>>>)
    ensures r.Ok? <==> forall j :: 0 <= j < |ks| ==> ks[j] < val.cols
    ensures r.Err? ==> r.error.IndexError?
    ensures r.Ok? ==> IsBlock(r.value, |val.rows|, |ks|)
    ensures r.Ok? ==> forall i, j :: 0 <= i < |val.rows| && 0 <= j < |ks| ==>
                        r.value[i][j] == val.rows[i][ks[j]]
  {
    match FirstAtLeast(ks, val.cols)
    case Some(k) =>
      Err(IndexError("index " + IntToStr(k) + " is out of bounds for axis 1 with size "
                     + IntToStr(val.cols)))
    case None =>
      Ok(seq(|val.rows|, i requires 0 <= i < |val.rows| =>
               seq(|ks|, j requires 0 <= j < |ks| => val.rows[i][ks[j]])))
  }

  /** numpy's rule for assigning a `(srcRows, srcCols)` block into a
      `(dstRows, dstCols)` slot: each axis must match or be 1. */
  predicate Broadcastable(srcRows: nat, srcCols: nat, dstRows: nat, dstCols: nat)
  {
    (srcRows == dstRows || srcRows == 1) && (srcCols == dstCols || srcCols == 1)
  }

  /** The values a broadcasting assignment writes, or the ValueError it raises. */
  function Broadcast(src: seq<seq<real>>, srcCols: nat, dstRows: nat, dstCols: nat)
    : (r: Result<seq<seq<real>>>)
    requires IsBlock(src, |src|, srcCols)
    ensures r.Ok? <==> Broadcastable(|src|, srcCols, dstRows, dstCols)
    ensures r.Err? ==> r.error == ValueError(CannotBroadcast(|src|, srcCols, dstRows, dstCols))
    ensures r.Ok? ==> IsBlock(r.value, dstRows, dstCols)
    ensures r.Ok? ==> forall i, j :: 0 <= i < dstRows && 0 <= j < dstCols ==>
                        r.value[i][j] == src[if |src| == 1 then 0 else i][if srcCols == 1 then 0 else j]
  {
    if Broadcastable(|src|, srcCols, dstRows, dstCols) then
      Ok(seq(dstRows, i requires 0 <= i < dstRows =>
               seq(dstCols, j requires 0 <= j < dstCols =>
                     src[if |src| == 1 then 0 else i][if srcCols == 1 then 0 else j])))
    else
      Err(ValueError(CannotBroadcast(|src|, srcCols, dstRows, dstCols)))
  }

  /** The right-hand side of `out[n, ...] = field_val[:, ks]`, once it has been
      fitted to an `(nsamples, nsmooth)` slot. */
  function RowBlock(val: Array2, ks: seq<nat>, nsamples: nat, nsmooth: nat)
    : (r: Result<seq<seq<real>>>)
    ensures r.Ok? <==> (forall j :: 0 <= j < |ks| ==> ks[j] < val.cols)
                       && Broadcastable(|val.rows|, |ks|, nsamples, nsmooth)
    ensures r.Ok? ==> IsBlock(r.value, nsamples, nsmooth)
  {
    var cols :- TakeColumns(val, ks);
    Broadcast(cols, |ks|, nsamples, nsmooth)
  }

  /** In the usual case, where the file has as many rows as the first one and
      exactly one column per requested scale, row `n` is `field_val[:, ks]`. */
  lemma RowBlockSelects(val: Array2, ks: seq<nat>, nsamples: nat, nsmooth: nat)
    requires forall j :: 0 <= j < |ks| ==> ks[j] < val.cols
    requires |val.rows| == nsamples && |ks| == nsmooth
    ensures RowBlock(val, ks, nsamples, nsmooth).Ok?
    ensures forall i, j :: 0 <= i < nsamples && 0 <= j < nsmooth ==>
              RowBlock(val, ks, nsamples, nsmooth).value[i][j] == val.rows[i][ks[j]]
  {
    var cols := TakeColumns(val, ks).value;
    var r := RowBlock(val, ks, nsamples, nsmooth).value;
    forall i, j | 0 <= i < nsamples && 0 <= j < nsmooth
      ensures r[i][j] == val.rows[i][ks[j]]
    {
      assert r[i][j] == cols[if nsamples == 1 then 0 else i][if nsmooth == 1 then 0 else j];
    }
  }

  // ---------------------------------------------------------------------------
  // The whole assembly, as a specification

  /** How the loop finds the file of a simulation; `load_event_field` uses
      `FieldPath`, and everything below holds for any such function. */
  type PathOf = int -> Result<string>

  function PathFn(req: Request): PathOf
  {
    nsim => FieldPath(req, nsim)
  }

  /** Row `n` of the output: the file of simulation `NSims[n]`, cut and fitted. */
  function RowAt(pathOf: PathOf, files: string -> FieldFile, ks: seq<nat>,
                 nsamples: nat, nsmooth: nat, n: nat): (r: Result<seq<seq<real>>>)
    requires n < NumSims
    ensures r.Ok? ==> IsBlock(r.value, nsamples, nsmooth)
  {
    var path :- pathOf(NSims[n]);
    RowBlock(files(path).val, ks, nsamples, nsmooth)
  }

  /** Every row of the output, each a block or the error its assignment raises. */
  function Rows(pathOf: PathOf, files: string -> FieldFile, ks: seq<nat>,
                nsamples: nat, nsmooth: nat): (rs: seq<Result<seq<seq<real>>>>)
    ensures |rs| == NumSims
  {
    seq(NumSims, n requires 0 <= n < NumSims => RowAt(pathOf, files, ks, nsamples, nsmooth, n))
  }

  /** The first file: the one that fixes `ks` and the shape. */
  function FirstFile(pathOf: PathOf, files: string -> FieldFile): FieldFile
    requires pathOf(NSims[0]).Ok?
  {
    files(pathOf(NSims[0]).value)
  }

  /** What the loop of `load_event_field` returns or raises: the path of the
      first file, then the scale check (ValueError, before anything is
      allocated), then row by row, stopping at the first row that fails. */
  function AssembleSpec(smoothScales: seq<real>, pathOf: PathOf, files: string -> FieldFile)
    : (r: Result<seq<seq<seq<real>>>>)
    ensures pathOf(NSims[0]).Err? ==> r == Err(pathOf(NSims[0]).error)
    ensures r.Ok? ==> |r.value| == NumSims
  {
    var path0 :- pathOf(NSims[0]);
    var first := files(path0);
    match FirstMissing(smoothScales, first.smoothScales)
    case Some(s) => Err(ValueError(SmoothScaleNotFound(s)))
    case None =>
      Collect(Rows(pathOf, files, Selection(first.smoothScales, smoothScales),
                   |first.val.rows|, |smoothScales|))
  }

  /** What `load_event_field(event, kind, paths, grid, MAS, in_rsp, smooth_scales)`
      returns or raises: 101 blocks, or an error; without "dumpdir" the very
      first path lookup raises AttributeError. */
  function LoadEventFieldSpec(req: Request, files: string -> FieldFile)
    : (r: Result<seq<seq<seq<real>>>>)
    ensures "dumpdir" !in req.paths.pathsDict ==> r == Err(AttributeError(PathNotFound("dumpdir")))
    ensures r.Ok? ==> |r.value| == NumSims
  {
    assert PathFn(req)(NSims[0]) == FieldPath(req, NSims[0]);
    AssembleSpec(req.smoothScales, PathFn(req), files)
  }

  /** The call `load_event_field(event, kind, paths, grid)` with every default. */
  function DefaultRequest(event: string, kind: string, paths: Paths, grid: int): Request
  {
    Request(event, kind, paths, grid, DefaultMAS, true, DefaultSmoothScales)
  }

  /** With every default, the files read are
      `rand_{event}_{kind}_rsp_PCS_{tag}_grid{grid}.npz`, and a successful load
      found the scales 0 to 4 in the first file and has five columns per block. */
  lemma DefaultCall(event: string, kind: string, paths: Paths, grid: int,
                    files: string -> FieldFile, nsim: int)
    ensures FieldFileName(DefaultRequest(event, kind, paths, grid), nsim)
         == "rand_" + event + "_" + (kind + "_rsp") + "_" + "PCS" + "_"
            + (SimulationTag(nsim) + "_grid" + IntToStr(grid)) + ".npz"
    ensures var req := DefaultRequest(event, kind, paths, grid);
            var r := LoadEventFieldSpec(req, files);
            r.Ok? ==> && "dumpdir" in paths.pathsDict
                      && (forall x :: x in [0.0, 1.0, 2.0, 3.0, 4.0] ==>
                            x in FirstFile(PathFn(req), files).smoothScales)
                      && forall n :: 0 <= n < NumSims ==>
                           IsBlock(r.value[n], |FirstFile(PathFn(req), files).val.rows|, 5)
  {
    var req := DefaultRequest(event, kind, paths, grid);
    FieldFileNameShift(req, nsim);
    if LoadEventFieldSpec(req, files).Ok? {
      AssembledField(req.smoothScales, PathFn(req), files);
      assert PathFn(req)(NSims[0]) == FieldPath(req, NSims[0]);
      var first := FirstFile(PathFn(req), files);
      forall x | x in [0.0, 1.0, 2.0, 3.0, 4.0] ensures x in first.smoothScales {
        var i :| 0 <= i < 5 && DefaultSmoothScales[i] == x;
      }
    }
  }

  /** The output holds 101 blocks of `(len(first val), len(smooth_scales))`, and
      block `n` is exactly what the file of simulation `NSims[n]` contributes. */
  lemma AssembledField(smoothScales: seq<real>, pathOf: PathOf, files: string -> FieldFile)
    requires AssembleSpec(smoothScales, pathOf, files).Ok?
    ensures pathOf(NSims[0]).Ok?
    ensures var first := FirstFile(pathOf, files);
            var out := AssembleSpec(smoothScales, pathOf, files).value;
            var ks := Selection(first.smoothScales, smoothScales);
            && FirstMissing(smoothScales, first.smoothScales).None?
            && |out| == NumSims
            && (forall n :: 0 <= n < NumSims ==>
                  IsBlock(out[n], |first.val.rows|, |smoothScales|)
                  && pathOf(NSims[n]).Ok?
                  && RowBlock(files(pathOf(NSims[n]).value).val, ks,
                              |first.val.rows|, |smoothScales|) == Ok(out[n]))
  {
    var first := FirstFile(pathOf, files);
    var ks := Selection(first.smoothScales, smoothScales);
    var rs := Rows(pathOf, files, ks, |first.val.rows|, |smoothScales|);
    CollectCharacterised(rs);
    var out := AssembleSpec(smoothScales, pathOf, files).value;
    forall n | 0 <= n < NumSims
      ensures IsBlock(out[n], |first.val.rows|, |smoothScales|)
      ensures pathOf(NSims[n]).Ok?
      ensures RowBlock(files(pathOf(NSims[n]).value).val, ks,
                       |first.val.rows|, |smoothScales|) == Ok(out[n])
    {
      assert rs[n] == RowAt(pathOf, files, ks, |first.val.rows|, |smoothScales|, n);
      assert rs[n].Ok?;
    }
  }

  /** The assembly succeeds exactly when the first path is found, every
      requested scale is in the first file, and every file's block fits. */
  lemma AssemblySucceeds(smoothScales: seq<real>, pathOf: PathOf, files: string -> FieldFile)
    ensures AssembleSpec(smoothScales, pathOf, files).Ok? ==> pathOf(NSims[0]).Ok?
    ensures pathOf(NSims[0]).Ok? ==>
              (AssembleSpec(smoothScales, pathOf, files).Ok? <==>
                 (forall i :: 0 <= i < |smoothScales| ==>
                    smoothScales[i] in FirstFile(pathOf, files).smoothScales)
                 && (forall n :: 0 <= n < NumSims ==>
                       RowAt(pathOf, files, Selection(FirstFile(pathOf, files).smoothScales, smoothScales),
                             |FirstFile(pathOf, files).val.rows|, |smoothScales|, n).Ok?))
  {
    if pathOf(NSims[0]).Ok? && FirstMissing(smoothScales, FirstFile(pathOf, files).smoothScales).None? {
      AssemblyOfFoundScales(smoothScales, pathOf, files);
    }
  }

  /** Once every requested scale is found, the assembly succeeds exactly when
      every row does. */
  lemma AssemblyOfFoundScales(smoothScales: seq<real>, pathOf: PathOf, files: string -> FieldFile)
    requires pathOf(NSims[0]).Ok?
    requires FirstMissing(smoothScales, FirstFile(pathOf, files).smoothScales).None?
    ensures AssembleSpec(smoothScales, pathOf, files).Ok? <==>
              forall n :: 0 <= n < NumSims ==>
                RowAt(pathOf, files, Selection(FirstFile(pathOf, files).smoothScales, smoothScales),
                      |FirstFile(pathOf, files).val.rows|, |smoothScales|, n).Ok?
  {
    var first := FirstFile(pathOf, files);
    AssembleSpecIsCollect(smoothScales, pathOf, files);
    var ks := Selection(first.smoothScales, smoothScales);
    var rs := Rows(pathOf, files, ks, |first.val.rows|, |smoothScales|);
    assert forall n :: 0 <= n < NumSims ==> rs[n] == RowAt(pathOf, files, ks, |first.val.rows|, |smoothScales|, n);
    CollectCharacterised(rs);
  }

  /** A requested scale missing from the first file raises ValueError naming the
      first such scale, whatever the other files hold. */
  lemma MissingScaleRaises(smoothScales: seq<real>, pathOf: PathOf, files: string -> FieldFile, i: nat)
    requires pathOf(NSims[0]).Ok?
    requires i < |smoothScales|
    requires smoothScales[i] !in FirstFile(pathOf, files).smoothScales
    requires forall j :: 0 <= j < i ==> smoothScales[j] in FirstFile(pathOf, files).smoothScales
    ensures AssembleSpec(smoothScales, pathOf, files) == Err(ValueError(SmoothScaleNotFound(smoothScales[i])))
  {
    var first := FirstFile(pathOf, files);
    var r := FirstMissing(smoothScales, first.smoothScales);
    var i' :| 0 <= i' < |smoothScales| && smoothScales[i'] == r.value
              && r.value !in first.smoothScales
              && forall j :: 0 <= j < i' ==> smoothScales[j] in first.smoothScales;
    assert i' == i;
  }

  /** A selection that is neither one column nor one per requested scale cannot
      be assigned: with one column per scale in the first file, the first row
      already raises ValueError (for example when the file lists a requested
      scale twice). */
  lemma SelectionSizeMismatchRaises(smoothScales: seq<real>, pathOf: PathOf, files: string -> FieldFile)
    requires pathOf(NSims[0]).Ok?
    requires forall i :: 0 <= i < |smoothScales| ==> smoothScales[i] in FirstFile(pathOf, files).smoothScales
    requires |FirstFile(pathOf, files).smoothScales| <= FirstFile(pathOf, files).val.cols
    requires var ks := Selection(FirstFile(pathOf, files).smoothScales, smoothScales);
             |ks| != |smoothScales| && |ks| != 1
    ensures var first := FirstFile(pathOf, files);
            var ks := Selection(first.smoothScales, smoothScales);
            AssembleSpec(smoothScales, pathOf, files)
            == Err(ValueError(CannotBroadcast(|first.val.rows|, |ks|, |first.val.rows|, |smoothScales|)))
  {
    var first := FirstFile(pathOf, files);
    var ks := Selection(first.smoothScales, smoothScales);
    var rs := Rows(pathOf, files, ks, |first.val.rows|, |smoothScales|);
    assert rs[0] == RowAt(pathOf, files, ks, |first.val.rows|, |smoothScales|, 0);
    AssembleSpecIsCollect(smoothScales, pathOf, files);
    CollectFirstError(rs, 0);
  }

  /** In the usual case, where file `n` has as many rows as the first file and
      exactly one column per requested scale, block `n` of the output is
      `field_val[:, ks]` of that file. */
  lemma AssembledRowsAreSelectedColumns(smoothScales: seq<real>, pathOf: PathOf,
                                        files: string -> FieldFile, n: nat)
    requires AssembleSpec(smoothScales, pathOf, files).Ok?
    requires n < NumSims
    ensures pathOf(NSims[0]).Ok? && pathOf(NSims[n]).Ok?
    ensures var out := AssembleSpec(smoothScales, pathOf, files).value;
            |out| == NumSims && IsBlock(out[n], |FirstFile(pathOf, files).val.rows|, |smoothScales|)
    ensures var first := FirstFile(pathOf, files);
            var ks := Selection(first.smoothScales, smoothScales);
            var file := files(pathOf(NSims[n]).value);
            var out := AssembleSpec(smoothScales, pathOf, files).value;
            |file.val.rows| == |first.val.rows| && |ks| == |smoothScales| ==>
              forall i, j :: 0 <= i < |first.val.rows| && 0 <= j < |ks| ==>
                ks[j] < file.val.cols && out[n][i][j] == file.val.rows[i][ks[j]]
  {
    AssembledField(smoothScales, pathOf, files);
    var first := FirstFile(pathOf, files);
    var ks := Selection(first.smoothScales, smoothScales);
    var file := files(pathOf(NSims[n]).value);
    if |file.val.rows| == |first.val.rows| && |ks| == |smoothScales| {
      assert TakeColumns(file.val, ks).Ok?;
      RowBlockSelects(file.val, ks, |first.val.rows|, |smoothScales|);
    }
  }

  // ---------------------------------------------------------------------------
  // The loop

  /** The scale check of the first pass: the first requested scale the file lacks. */
  method CheckScales(wanted: seq<real>, scales: seq<real>) returns (missing: Option<real>)
    ensures missing == FirstMissing(wanted, scales)
  {
    var i := 0;
    while i < |wanted|
      invariant 0 <= i <= |wanted|
      invariant forall j :: 0 <= j < i ==> wanted[j] in scales
    {
      if wanted[i] !in scales {
        ghost var r := FirstMissing(wanted, scales);
        ghost var i' :| 0 <= i' < |wanted| && wanted[i'] == r.value && r.value !in scales
                        && forall j :: 0 <= j < i' ==> wanted[j] in scales;
        assert i' == i;
        return Some(wanted[i]);
      }
      i := i + 1;
    }
    return None;
  }

  /** The `(nsamples, nsmooth)` slab `out[n, ...]` as nested sequences. */
  ghost function Slab(out: array3<real>, n: nat): (b: seq<seq<real>>)
    requires n < out.Length0
    reads out
    ensures IsBlock(b, out.Length1, out.Length2)
  {
    seq(out.Length1, i requires 0 <= i < out.Length1 reads out =>
          seq(out.Length2, j requires 0 <= j < out.Length2 reads out => out[n, i, j]))
  }

  /** A block of zeros. */
  function ZeroBlock(rows: nat, cols: nat): (b: seq<seq<real>>)
    ensures IsBlock(b, rows, cols)
  {
    seq(rows, _ => seq(cols, _ => 0.0))
  }

  /** `np.zeros((rows, nsamples, nsmooth))`. */
  method Zeros3(rows: nat, nsamples: nat, nsmooth: nat) returns (out: array3<real>)
    ensures fresh(out)
    ensures out.Length0 == rows && out.Length1 == nsamples && out.Length2 == nsmooth
    ensures forall m :: 0 <= m < rows ==> Slab(out, m) == ZeroBlock(nsamples, nsmooth)
  {
    out := new real[rows, nsamples, nsmooth]((_, _, _) => 0.0);
    forall m | 0 <= m < rows ensures Slab(out, m) == ZeroBlock(nsamples, nsmooth) {
      forall i | 0 <= i < nsamples ensures Slab(out, m)[i] == ZeroBlock(nsamples, nsmooth)[i] {
      }
    }
  }

  /** `out[n, ...] = block` for a block that already has the slab's shape. */
  method WriteBlock(out: array3<real>, n: nat, block: seq<seq<real>>)
    requires n < out.Length0 && IsBlock(block, out.Length1, out.Length2)
    modifies out
    ensures Slab(out, n) == block
    ensures forall m :: 0 <= m < out.Length0 && m != n ==> Slab(out, m) == old(Slab(out, m))
  {
    forall i, j | 0 <= i < out.Length1 && 0 <= j < out.Length2 {
      out[n, i, j] := block[i][j];
    }
    forall i | 0 <= i < out.Length1 ensures Slab(out, n)[i] == block[i] {
    }
    forall m | 0 <= m < out.Length0 && m != n
      ensures Slab(out, m) == old(Slab(out, m))
    {
      forall i | 0 <= i < out.Length1 ensures Slab(out, m)[i] == old(Slab(out, m))[i] {
      }
    }
  }

  /** Once the first path is found and no scale is missing, the assembly is
      the collection of the rows. */
  lemma AssembleSpecIsCollect(smoothScales: seq<real>, pathOf: PathOf, files: string -> FieldFile)
    requires pathOf(NSims[0]).Ok?
    requires FirstMissing(smoothScales, FirstFile(pathOf, files).smoothScales).None?
    ensures AssembleSpec(smoothScales, pathOf, files)
            == Collect(Rows(pathOf, files, Selection(FirstFile(pathOf, files).smoothScales, smoothScales),
                            |FirstFile(pathOf, files).val.rows|, |smoothScales|))
  {
  }

  /** The loop of `load_event_field`: one pass over the 101 simulations; the
      first pass checks the scales, fixes `ks` and the shape and allocates a
      zero-filled output, and every pass writes its own block in place. */
  method AssembleEventField(smoothScales: seq<real>, pathOf: PathOf, files: string -> FieldFile)
    returns (res: Result<array3<real>>)
    ensures res.Ok? == AssembleSpec(smoothScales, pathOf, files).Ok?
    ensures res.Err? ==> res.error == AssembleSpec(smoothScales, pathOf, files).error
    ensures res.Ok? ==>
              var out, cube := res.value, AssembleSpec(smoothScales, pathOf, files).value;
              && fresh(out)
              && pathOf(NSims[0]).Ok?
              && out.Length0 == NumSims && out.Length1 == |FirstFile(pathOf, files).val.rows|
              && out.Length2 == |smoothScales|
              && forall n :: 0 <= n < NumSims ==> Slab(out, n) == cube[n]
  {
    var nsims := NSims;
    var nsmooth := |smoothScales|;
    var out: array3?<real> := null;
    var ks: seq<nat> := [];
    var nsamples: nat := 0;
    ghost var rs: seq<Result<seq<seq<real>>>> := [];
    var n := 0;
    while n < |nsims|
      invariant 0 <= n <= NumSims && nsims == NSims
      invariant n > 0 ==> pathOf(NSims[0]).Ok?
      invariant n > 0 ==> FirstMissing(smoothScales, FirstFile(pathOf, files).smoothScales).None?
      invariant n > 0 ==> ks == Selection(FirstFile(pathOf, files).smoothScales, smoothScales)
      invariant n > 0 ==> nsamples == |FirstFile(pathOf, files).val.rows|
      invariant n > 0 ==> rs == Rows(pathOf, files, ks, nsamples, nsmooth)
      invariant n > 0 ==> AssembleSpec(smoothScales, pathOf, files) == Collect(rs)
      invariant n > 0 ==> out != null && fresh(out)
      invariant n > 0 ==> out.Length0 == NumSims && out.Length1 == nsamples && out.Length2 == nsmooth
      invariant n > 0 ==> forall m :: 0 <= m < n ==> rs[m].Ok? && Slab(out, m) == rs[m].value
    {
      var fpath := pathOf(nsims[n]);
      if fpath.Err? {
        if n > 0 {
          assert rs[n] == RowAt(pathOf, files, ks, nsamples, nsmooth, n) == Err(fpath.error);
          CollectFirstError(rs, n);
        }
        return Err(fpath.error);
      }
      var f := files(fpath.value);
      if n == 0 {
        var missing := CheckScales(smoothScales, f.smoothScales);
        if missing.Some? {
          return Err(ValueError(SmoothScaleNotFound(missing.value)));
        }
        ks := Selection(f.smoothScales, smoothScales);
        nsamples := |f.val.rows|;
        out := Zeros3(NumSims, nsamples, nsmooth);
        rs := Rows(pathOf, files, ks, nsamples, nsmooth);
        AssembleSpecIsCollect(smoothScales, pathOf, files);
      }
      var block := RowBlock(f.val, ks, nsamples, nsmooth);
      assert block == rs[n];
      if block.Err? {
        CollectFirstError(rs, n);
        return Err(block.error);
      }
      label Before:
      WriteBlock(out, n, block.value);
      forall m | 0 <= m < n + 1 ensures rs[m].Ok? && Slab(out, m) == rs[m].value {
        if m < n {
          assert Slab(out, m) == old@Before(Slab(out, m));
        }
      }
      n := n + 1;
    }
    assert n == NumSims;
    CollectCharacterised(rs);
    return Ok(out);
  }

  /** `load_event_field` as called: the loop over the files that `FieldPath` names. */
  method LoadEventField(req: Request, files: string -> FieldFile) returns (res: Result<array3<real>>)
    ensures res.Ok? == LoadEventFieldSpec(req, files).Ok?
    ensures res.Err? ==> res.error == LoadEventFieldSpec(req, files).error
    ensures res.Ok? ==>
              var out, cube := res.value, LoadEventFieldSpec(req, files).value;
              && fresh(out)
              && "dumpdir" in req.paths.pathsDict
              && out.Length0 == NumSims && out.Length1 == |FirstFile(PathFn(req), files).val.rows|
              && out.Length2 == |req.smoothScales|
              && forall n :: 0 <= n < NumSims ==> Slab(out, n) == cube[n]
  {
    res := AssembleEventField(req.smoothScales, PathFn(req), files);
    assert PathFn(req)(NSims[0]) == FieldPath(req, NSims[0]);
  }
}
