/** `gwlss.Paths`: a read-only dictionary of named paths, the dispatch that
    opens an event's posterior samples, and the deterministic name of the file
    holding a field evaluated at an event's samples. */
module GwlssPaths {
  import opened PyErrors
  import opened Text

  /** What `Paths.__init__` is given: a dict of named paths, or any other object. */
  datatype PathsArg = DictArg(entries: map<string, string>) | NotADict

  /** A `Paths` object. Its dictionary is set by the constructor and never changed. */
  datatype Paths = Paths(pathsDict: map<string, string>)

  /** `Paths(paths_dict)`: the constructor asserts that its argument is a dict. */
  function NewPaths(arg: PathsArg): (r: Result<Paths>)
    ensures r.Ok? <==> arg.DictArg?
    ensures r.Ok? ==> r.value.pathsDict == arg.entries
    ensures r.Err? ==> r.error == AssertionError
  {
    match arg
    case DictArg(entries) => Ok(Paths(entries))
    case NotADict => Err(AssertionError)
  }

  function PathNotFound(name: string): string
  {
    "Path `" + name + "` not found in `paths_dict`."
  }

  /** `paths[name]`: a missing key surfaces as an AttributeError, never a KeyError. */
  function GetItem(p: Paths, name: string): (r: Result<string>)
    ensures r.Ok? <==> name in p.pathsDict
    ensures r.Ok? ==> r.value == p.pathsDict[name]
    ensures r.Err? ==> r.error.AttributeError? && r.error.msg == PathNotFound(name)
  {
    if name in p.pathsDict then Ok(p.pathsDict[name])
    else Err(AttributeError(PathNotFound(name)))
  }

  // ---------------------------------------------------------------------------
  // load_event

  /** `File(path, 'r')["samples"]`: the group that holds the posterior samples.
      Reading the HDF5 file itself is not modelled. */
  datatype EventSamples = EventSamples(hdf5File: string, group: string)

  const KnownEvent: string := "GW170817"
  const KnownEventKey: string := "GW170817_darkPE"

  function EventNotFound(event: string): string
  {
    "Event `" + event + "` not found."
  }

  /** `Paths.load_event`: only "GW170817" is known; its samples come from the
      file stored under "GW170817_darkPE". */
  function LoadEvent(p: Paths, event: string): (r: Result<EventSamples>)
    ensures event != KnownEvent ==> r == Err(KeyError(EventNotFound(event)))
    ensures event == KnownEvent ==> (r.Ok? <==> KnownEventKey in p.pathsDict)
    ensures event == KnownEvent && r.Err? ==> r.error.AttributeError?
    ensures r.Ok? ==> r.value == EventSamples(p.pathsDict[KnownEventKey], "samples")
  {
    if event == KnownEvent then
      var file :- GetItem(p, KnownEventKey);
      Ok(EventSamples(file, "samples"))
    else
      Err(KeyError(EventNotFound(event)))
  }

  // ---------------------------------------------------------------------------
  // evaluated_field

  /** The `smooth_scale` argument: None, or a number. */
  datatype SmoothScale = NoScale | Scale(value: real)

  const DefaultMAS: string := "PCS"
  const Npz: string := ".npz"

  /** `str(nsim).zfill(5)`: at least five characters, digits and a sign only,
      and `int()` reads the simulation index back from it. */
  function SimulationTag(nsim: int): (t: string)
    ensures |t| >= 5
    ensures ParseInt(t) == Some(nsim)
    ensures DigitsOrMinus(t)
  {
    ZFillRoundTrip(nsim, 5);
    ZFillKeepsDigitsOrMinus(IntToStr(nsim), 5);
    ZFill(IntToStr(nsim), 5)
  }

  /** The file name before the extension: `{event}_{kind}_{MAS}_{tag}_grid{grid}`
      once the flags have rewritten event and kind. It starts with the head, and
      no character after the head can be part of a ".npz". */
  function Stem(event: string, kind: string, nsim: int, grid: int, mas: string,
                isRand: bool, inRsp: bool): (s: string)
    ensures var head := StemHead(event, kind, mas, isRand, inRsp);
            |s| >= |head| && s[..|head|] == head
    ensures forall i :: |StemHead(event, kind, mas, isRand, inRsp)| <= i < |s| ==> s[i] !in Npz
  {
    var head, tail := StemHead(event, kind, mas, isRand, inRsp), StemTail(nsim, grid);
    AppendAvoiding(head, tail, Npz);
    head + tail
  }

  /** `{tag}_grid{grid}`, the part of the stem that depends on the simulation
      and the grid: digits, signs and the letters of "_grid", none of which
      occurs in ".npz". */
  function StemTail(nsim: int, grid: int): (t: string)
    ensures forall i :: 0 <= i < |t| ==> t[i] !in Npz
  {
    var tag, g := SimulationTag(nsim), IntToStr(grid);
    NumeralAvoidsNpz(tag);
    NumeralAvoidsNpz(g);
    assert forall i :: 0 <= i < |tag + "_grid"| ==> (tag + "_grid")[i] !in Npz;
    tag + "_grid" + g
  }

  /** `{event}_{kind}_{MAS}_`: the part of the stem before the simulation tag. */
  function StemHead(event: string, kind: string, mas: string, isRand: bool, inRsp: bool): string
  {
    var event' := if isRand then "rand_" + event else event;
    var kind' := if inRsp then kind + "_rsp" else kind;
    event' + "_" + kind' + "_" + mas + "_"
  }

  lemma NumeralAvoidsNpz(s: string)
    requires DigitsOrMinus(s)
    ensures forall i :: 0 <= i < |s| ==> s[i] !in Npz
  {
    forall i | 0 <= i < |s| ensures s[i] !in Npz {
      assert IsDigit(s[i]) || s[i] == '-';
    }
  }

  predicate Smoothed(smooth: SmoothScale)
  {
    smooth.Scale? && smooth.value > 0.0
  }

  /** What replaces every ".npz" when a positive smoothing scale is given;
      `floatStr` stands for Python's `str(float(x))`. */
  function SmoothSuffix(x: real, floatStr: real -> string): string
  {
    "smooth" + floatStr(x) + Npz
  }

  lemma NpzUnbordered()
    ensures |Npz| > 0 && Unbordered(Npz)
  {
    forall k | 0 < k < |Npz| ensures Npz[k..] != Npz[..|Npz| - k] {
      assert Npz[k..][0] != '.' == Npz[..|Npz| - k][0];
    }
  }

  /** The file name built from its stem: ".npz" appended, then, with a positive
      smoothing scale, every ".npz" replaced by the smoothing suffix. */
  function NameOfStem(stem: string, smooth: SmoothScale, floatStr: real -> string): (fname: string)
    ensures |fname| >= |Npz| && fname[|fname| - |Npz|..] == Npz
  {
    var fname := stem + Npz;
    if Smoothed(smooth) then
      var suffix := SmoothSuffix(smooth.value, floatStr);
      NpzUnbordered();
      ReplaceAtEnd(stem, Npz, suffix);
      Replace(fname, Npz, suffix)
    else
      fname
  }

  /** The file name built by `Paths.evaluated_field`. */
  function FileName(event: string, kind: string, nsim: int, grid: int, mas: string,
                    isRand: bool, inRsp: bool, smooth: SmoothScale,
                    floatStr: real -> string): (fname: string)
    ensures |fname| >= |Npz| && fname[|fname| - |Npz|..] == Npz
  {
    var stem := Stem(event, kind, nsim, grid, mas, isRand, inRsp);
    NameOfStem(stem, smooth, floatStr)
  }

  /** `Paths.evaluated_field`: `join(join(paths["dumpdir"], "evaluated"), fname)`.
      Creating the directory is not modelled. */
  function EvaluatedField(p: Paths, event: string, kind: string, nsim: int, grid: int,
                          mas: string, isRand: bool, inRsp: bool, smooth: SmoothScale,
                          floatStr: real -> string): (r: Result<string>)
    ensures r.Ok? <==> "dumpdir" in p.pathsDict
    ensures r.Err? ==> r == Err(AttributeError(PathNotFound("dumpdir")))
    ensures r.Ok? ==> r.value == Join(Join(p.pathsDict["dumpdir"], "evaluated"),
                                      FileName(event, kind, nsim, grid, mas, isRand, inRsp, smooth, floatStr))
  {
    var dumpdir :- GetItem(p, "dumpdir");
    var fdir := Join(dumpdir, "evaluated");
    Ok(Join(fdir, FileName(event, kind, nsim, grid, mas, isRand, inRsp, smooth, floatStr)))
  }

  // ---------------------------------------------------------------------------
  // Properties of the name

  /** Without a positive smoothing scale the name is exactly
      `[rand_]{event}_{kind}[_rsp]_{MAS}_{str(nsim).zfill(5)}_grid{grid}.npz`. */
  lemma UnsmoothedFileName(event: string, kind: string, nsim: int, grid: int, mas: string,
                           isRand: bool, inRsp: bool, smooth: SmoothScale,
                           floatStr: real -> string)
    requires smooth.NoScale? || smooth.value <= 0.0
    ensures FileName(event, kind, nsim, grid, mas, isRand, inRsp, smooth, floatStr)
         == (if isRand then "rand_" + event else event) + "_" + (if inRsp then kind + "_rsp" else kind)
            + "_" + mas + "_" + (ZFill(IntToStr(nsim), 5) + "_grid" + IntToStr(grid)) + ".npz"
  {
  }

  /** With a positive smoothing scale, every ".npz" of the unsmoothed name is
      replaced, the final one included, so the name ends in
      `smooth{scale}.npz`; when the stem holds no ".npz" that is the only change. */
  lemma SmoothedFileName(event: string, kind: string, nsim: int, grid: int, mas: string,
                         isRand: bool, inRsp: bool, x: real, floatStr: real -> string)
    requires x > 0.0
    ensures var stem := Stem(event, kind, nsim, grid, mas, isRand, inRsp);
            FileName(event, kind, nsim, grid, mas, isRand, inRsp, Scale(x), floatStr)
            == Replace(stem, Npz, SmoothSuffix(x, floatStr)) + SmoothSuffix(x, floatStr)
    ensures var stem := Stem(event, kind, nsim, grid, mas, isRand, inRsp);
            !Occurs(stem, Npz) ==>
              FileName(event, kind, nsim, grid, mas, isRand, inRsp, Scale(x), floatStr)
              == stem + "smooth" + floatStr(x) + ".npz"
  {
    SmoothedName(Stem(event, kind, nsim, grid, mas, isRand, inRsp), x, floatStr);
  }

  lemma SmoothedName(stem: string, x: real, floatStr: real -> string)
    requires x > 0.0
    ensures NameOfStem(stem, Scale(x), floatStr)
            == Replace(stem, Npz, SmoothSuffix(x, floatStr)) + SmoothSuffix(x, floatStr)
    ensures !Occurs(stem, Npz) ==>
              NameOfStem(stem, Scale(x), floatStr) == stem + "smooth" + floatStr(x) + ".npz"
  {
    NpzUnbordered();
    ReplaceAtEnd(stem, Npz, SmoothSuffix(x, floatStr));
    if !Occurs(stem, Npz) {
      ReplaceWithoutOccurrence(stem, Npz, SmoothSuffix(x, floatStr));
    }
  }

  /** `is_rand` only prefixes "rand_" to the event. */
  lemma RandFlagPrefixesEvent(event: string, kind: string, nsim: int, grid: int, mas: string,
                              inRsp: bool, smooth: SmoothScale, floatStr: real -> string)
    ensures FileName(event, kind, nsim, grid, mas, true, inRsp, smooth, floatStr)
         == FileName("rand_" + event, kind, nsim, grid, mas, false, inRsp, smooth, floatStr)
  {
  }

  /** `in_rsp` only appends "_rsp" to the kind. */
  lemma RspFlagSuffixesKind(event: string, kind: string, nsim: int, grid: int, mas: string,
                            isRand: bool, smooth: SmoothScale, floatStr: real -> string)
    ensures FileName(event, kind, nsim, grid, mas, isRand, true, smooth, floatStr)
         == FileName(event, kind + "_rsp", nsim, grid, mas, isRand, false, smooth, floatStr)
  {
  }

  /** For a positive index the tag is `str(nsim)` zero-padded on the left:
      stripping the zeros gives it back. */
  lemma SimulationTagRoundTrip(nsim: int)
    ensures nsim > 0 ==> StripLeadingZeros(SimulationTag(nsim)) == NatToStr(nsim)
  {
    if nsim > 0 {
      ZFillStripRoundTrip(nsim, 5);
    }
  }

  /** A four-digit index gets exactly one leading zero. */
  lemma SimulationTagOfFourDigits(nsim: int)
    requires 1000 <= nsim < 10000
    ensures SimulationTag(nsim) == "0" + NatToStr(nsim)
  {
    var s := NatToStr(nsim);
    assert |s| == 4 by {
      assert |NatToStr(nsim / 1000)| == 1;
      assert |NatToStr(nsim / 100)| == 2;
      assert |NatToStr(nsim / 10)| == 3;
    }
    assert IntToStr(nsim) == s;
    assert SimulationTag(nsim) == ZFill(s, 5) == Zeros(1) + s;
    assert Zeros(1) == "0";
  }

  /** Names of two different simulations differ, with or without smoothing:
      the zero-padded index is the only part that depends on `nsim`, and no
      ".npz" rewritten by the smoothing can reach into it. */
  lemma FileNameSeparatesSimulations(event: string, kind: string, nsim1: int, nsim2: int,
                                     grid: int, mas: string, isRand: bool, inRsp: bool,
                                     smooth: SmoothScale, floatStr: real -> string)
    requires FileName(event, kind, nsim1, grid, mas, isRand, inRsp, smooth, floatStr)
          == FileName(event, kind, nsim2, grid, mas, isRand, inRsp, smooth, floatStr)
    ensures nsim1 == nsim2
  {
    var head := StemHead(event, kind, mas, isRand, inRsp);
    var tail1, tail2 := StemTail(nsim1, grid), StemTail(nsim2, grid);
    if Smoothed(smooth) {
      var suffix := SmoothSuffix(smooth.value, floatStr);
      SmoothedName(head + tail1, smooth.value, floatStr);
      SmoothedName(head + tail2, smooth.value, floatStr);
      ReplaceKeepsTail(head, Npz, suffix, tail1);
      ReplaceKeepsTail(head, Npz, suffix, tail2);
      MiddleDetermined(Replace(head, Npz, suffix), tail1, tail2, suffix);
    } else {
      MiddleDetermined(head, tail1, tail2, Npz);
    }
    StemTailSeparatesSimulations(nsim1, nsim2, grid);
  }

  /** The tags of two simulations are distinct, so their stem tails are too. */
  lemma StemTailSeparatesSimulations(nsim1: int, nsim2: int, grid: int)
    requires StemTail(nsim1, grid) == StemTail(nsim2, grid)
    ensures nsim1 == nsim2
  {
    var t1, t2, g := SimulationTag(nsim1), SimulationTag(nsim2), IntToStr(grid);
    Reassociate(t1, "_grid", g);
    Reassociate(t2, "_grid", g);
    var x := "_grid" + g;
    assert t1 + x == t2 + x;
    assert t1 == t2 by {
      assert |t1| == |t2|;
      assert t1 == (t1 + x)[..|t1|];
      assert t2 == (t2 + x)[..|t2|];
    }
  }

  /** Equal texts with the same frame have equal middles. */
  lemma MiddleDetermined(pre: string, t1: string, t2: string, post: string)
    requires pre + t1 + post == pre + t2 + post
    ensures t1 == t2
  {
    var s := pre + t1 + post;
    assert |t1| == |t2|;
    assert t1 == s[|pre|..|pre| + |t1|];
  }

  /** With a plain `dumpdir` and a relative file name the path is
      `{dumpdir}/evaluated/{fname}`. */
  lemma EvaluatedFieldLayout(p: Paths, event: string, kind: string, nsim: int, grid: int,
                             mas: string, isRand: bool, inRsp: bool, smooth: SmoothScale,
                             floatStr: real -> string)
    requires "dumpdir" in p.pathsDict
    requires p.pathsDict["dumpdir"] != [] && p.pathsDict["dumpdir"][|p.pathsDict["dumpdir"]| - 1] != '/'
    requires isRand || !StartsWithSlash(event)
    ensures EvaluatedField(p, event, kind, nsim, grid, mas, isRand, inRsp, smooth, floatStr)
         == Ok(p.pathsDict["dumpdir"] + "/evaluated/"
               + FileName(event, kind, nsim, grid, mas, isRand, inRsp, smooth, floatStr))
  {
    var fname := FileName(event, kind, nsim, grid, mas, isRand, inRsp, smooth, floatStr);
    assert !StartsWithSlash(fname) by {
      var stem := Stem(event, kind, nsim, grid, mas, isRand, inRsp);
      assert stem[0] != '/';
      NameOfStemFirstCharacter(stem, smooth, floatStr);
    }
    EvaluatedJoin(p.pathsDict["dumpdir"], fname);
  }

  /** `join(join(d, "evaluated"), fname)` for a plain `d` and a relative `fname`. */
  lemma EvaluatedJoin(d: string, fname: string)
    requires d != [] && d[|d| - 1] != '/' && !StartsWithSlash(fname)
    ensures Join(Join(d, "evaluated"), fname) == d + "/evaluated/" + fname
  {
    var fdir := Join(d, "evaluated");
    assert fdir == d + "/evaluated" by {
      assert !StartsWithSlash("evaluated");
    }
    assert Join(fdir, fname) == fdir + "/" + fname by {
      assert fdir[|fdir| - 1] == 'd';
    }
    assert fdir + "/" == d + "/evaluated/" by {
      assert "/evaluated" + "/" == "/evaluated/";
      assert (d + "/evaluated") + "/" == d + ("/evaluated" + "/");
    }
  }

  /** A name built from a stem that does not start with '/' does not either. */
  lemma NameOfStemFirstCharacter(stem: string, smooth: SmoothScale, floatStr: real -> string)
    requires stem != [] && stem[0] != '/'
    ensures !StartsWithSlash(NameOfStem(stem, smooth, floatStr))
  {
    if Smoothed(smooth) {
      ReplaceFirstCharacter(stem + Npz, Npz, SmoothSuffix(smooth.value, floatStr));
    }
  }
}
