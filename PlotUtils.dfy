// The label and simulation-list helpers of the plotting scripts
// (scripts_plots/plt_utils.py).

module PlotUtils {
  import opened PyErrors

  /** The two kinds of container the helpers build: a dictionary from strings to
      strings, and a tuple (what a trailing comma turns a dictionary into). */
  datatype PyObject = PyDict(entries: map<string, string>) | PyTuple(items: seq<PyObject>)

  const TupleHasNoGet := "'tuple' object has no attribute 'get'"

  /** `obj.get(key, default)`: a dictionary answers with its entry or the
      default; a tuple has no such method. */
  function Get(obj: PyObject, key: string, default: string): (r: Result<string>)
    ensures obj.PyDict? ==> r.Ok? && (key in obj.entries ==> r.value == obj.entries[key])
                            && (key !in obj.entries ==> r.value == default)
    ensures obj.PyTuple? ==> r == Err(AttributeError(TupleHasNoGet))
  {
    match obj
    case PyDict(entries) => Ok(if key in entries then entries[key] else default)
    case PyTuple(_) => Err(AttributeError(TupleHasNoGet))
  }

  // ---------------------------------------------------------------------------
  // str2label

  const Rho := "$\\rho$"
  const Delta := "$\\delta$"
  const Phi := "$\\Phi$"

  /** The three conversions `str2label` knows. */
  const LabelTable: map<string, string> :=
    map["density" := Rho, "overdensity" := Delta, "potential" := Phi]

  /** `str2label`: the three known quantities get their LaTeX symbols; every
      other string comes back unchanged. */
  function Str2Label(name: string): (r: string)
    ensures name == "density" ==> r == Rho
    ensures name == "overdensity" ==> r == Delta
    ensures name == "potential" ==> r == Phi
    ensures name !in {"density", "overdensity", "potential"} ==> r == name
  {
    assert LabelTable.Keys == {"density", "overdensity", "potential"};
    Get(PyDict(LabelTable), name, name).value
  }

  /** No symbol is itself a known quantity, so converting twice changes nothing. */
  lemma Str2LabelIdempotent(name: string)
    ensures Str2Label(Str2Label(name)) == Str2Label(name)
  {
    var r := Str2Label(name);
    if name in LabelTable {
      assert r in {Rho, Delta, Phi} && r[0] == '$';
    }
    assert r !in {"density", "overdensity", "potential"};
  }

  // ---------------------------------------------------------------------------
  // str2label_units

  /** `str2label_units` as written: `data = {},` binds a one-element tuple, and
      the `.get` call on it raises AttributeError whatever the label. */
  function Str2LabelUnits(name: string): (r: Result<string>)
    ensures r == Err(AttributeError(TupleHasNoGet))
  {
    Get(PyTuple([PyDict(map[])]), name, name)
  }

  /** Its own documentation promises the label back; no label gets it. */
  lemma Str2LabelUnitsAlwaysFails(name: string)
    ensures Str2LabelUnits(name) != Ok(name)
  {
  }

  /** `str2label_units` with `data = {}`: an empty table, so the helper never
      raises and every label is returned as it is. */
  function Str2LabelUnitsIntended(name: string): (r: Result<string>)
    ensures r == Ok(name)
  {
    Get(PyDict(map[]), name, name)
  }

  // ---------------------------------------------------------------------------
  // get_nsims

  const ListIndexOutOfRange := "list index out of range"
  const ArgsNotDefined := "name 'args' is not defined"

  /** `get_nsims(nsims)` as written. `ics` stands for the initial-condition
      indices the external catalogue lists (`get_ics("csiborg")`), returned when
      the first entry is -1; the other branch reads a name `args` that is not
      defined in the module. So an empty list raises IndexError, a leading -1
      asks for the full catalogue, and any other list raises NameError. */
  function GetNsims(nsims: seq<int>, ics: seq<int>): (r: Result<seq<int>>)
    ensures r.Ok? <==> |nsims| > 0 && nsims[0] == -1
    ensures r.Ok? ==> r.value == ics
    ensures |nsims| == 0 ==> r == Err(IndexError(ListIndexOutOfRange))
    ensures |nsims| > 0 && nsims[0] != -1 ==> r == Err(NameError(ArgsNotDefined))
  {
    if |nsims| == 0 then Err(IndexError(ListIndexOutOfRange))
    else if nsims[0] == -1 then Ok(ics)
    else Err(NameError(ArgsNotDefined))
  }

  /** An explicit list such as `[7444]` is never returned: it raises NameError. */
  lemma GetNsimsLosesExplicitList()
    ensures GetNsims([7444], []) == Err(NameError(ArgsNotDefined))
    ensures GetNsims([7444], []) != Ok([7444])
  {
  }

  /** `get_nsims` returning its own argument in the second branch: it fails
      only on the empty list, keeps every explicit list, and still expands a
      leading -1 to the catalogue. */
  function GetNsimsIntended(nsims: seq<int>, ics: seq<int>): (r: Result<seq<int>>)
    ensures r.Err? <==> |nsims| == 0
    ensures |nsims| > 0 && nsims[0] != -1 ==> r == Ok(nsims)
    ensures |nsims| > 0 && nsims[0] == -1 ==> r == Ok(ics)
  {
    if |nsims| == 0 then Err(IndexError(ListIndexOutOfRange))
    else if nsims[0] == -1 then Ok(ics)
    else Ok(nsims)
  }

  /** The correction changes exactly the explicit lists: on every other input
      the corrected helper and the code give the same outcome. */
  lemma GetNsimsCorrectionScope(nsims: seq<int>, ics: seq<int>)
    ensures GetNsimsIntended(nsims, ics) != GetNsims(nsims, ics) <==> |nsims| > 0 && nsims[0] != -1
  {
  }
}
