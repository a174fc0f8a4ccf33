/**
 * The adapter between the JWST calibration pipeline and the CRDS
 * best-reference library (jwst/stpipe/crds_client.py).
 *
 * The CRDS library, the data-model layer and the file system are not part of
 * this model: each call into them is a function parameter.  What the adapter
 * itself decides is modelled, with upper-casing over ASCII only and `repr`
 * without the `\x`/`\u` escapes: which header entries reach the rules,
 * the "empty means nothing" reading of the requested types, the re-raising of
 * the three CRDS failure kinds, the collapsing of "N/A" results, the override
 * parameter names, the `crds://` guard and the skip rule of the readability
 * check.
 */
module CrdsClient {
  import opened Wrappers
  import opened PyStr

  // ---------------------------------------------------------------------
  // Header values and the matching-parameter dictionary
  // ---------------------------------------------------------------------

  /** A value of the flattened data-model header. */
  datatype HeaderValue =
    | StrValue(s: string)
    | IntValue(i: int)                 // Python int, and long on Python 2
    | FloatValue(x: real)
    | ComplexValue(re: real, im: real)
    | BoolValue(b: bool)
    | NoneValue
    | ListValue(items: seq<HeaderValue>)
    | ObjectValue(typeName: string)    // any other object: arrays, dates, numpy scalars ...

  /** The `isinstance` test of `_clean_flat_dict`: string, integer, float, complex or bool. */
  predicate IsScalar(v: HeaderValue) {
    v.StrValue? || v.IntValue? || v.FloatValue? || v.ComplexValue? || v.BoolValue?
  }

  type Header = map<string, HeaderValue>

  predicate AllScalar(h: Header) {
    forall k :: k in h ==> IsScalar(h[k])
  }

  // ---------------------------------------------------------------------
  // Exceptions
  // ---------------------------------------------------------------------

  datatype ExcKind =
    | CrdsBadRulesError
    | CrdsBadReferenceError
    | CrdsLookupError
    | CrdsError
    | ValueError
    | KeyError
    | OtherError(name: string)

  /**
   * A raised exception: its class, its `args` (as strings) and the
   * traceback frames it carries from below the point where it was raised.
   */
  datatype Exception = Exception(kind: ExcKind, args: seq<string>, traceback: seq<string>)

  /** `str(exc)` as `BaseException.__str__` (and `KeyError.__str__`) compute it. */
  function ExcStr(e: Exception): string {
    if |e.args| == 0 then ""
    else if |e.args| == 1 then (if e.kind == KeyError then Repr(e.args[0]) else e.args[0])
    else "(" + JoinReprs(e.args) + ")"
  }

  /** The inside of a tuple's repr: the reprs of the items separated by ", ". */
  function JoinReprs(items: seq<string>): string
    decreases |items|
  {
    if |items| == 0 then ""
    else if |items| == 1 then Repr(items[0])
    else Repr(items[0]) + ", " + JoinReprs(items[1..])
  }

  /** The three CRDS failure kinds `_get_refpaths` catches and re-raises. */
  predicate IsTranslated(k: ExcKind) {
    k == CrdsBadRulesError || k == CrdsBadReferenceError || k == CrdsLookupError
  }

  /**
   * The `except` clauses of `_get_refpaths`: a caught CRDS failure is raised
   * again as a fresh exception of the same class whose only argument is the
   * string form of the original, without the library's traceback; any other
   * exception propagates untouched.
   */
  function Rekind(e: Exception): (r: Exception)
    ensures r.kind == e.kind
    ensures ExcStr(r) == ExcStr(e)
    ensures IsTranslated(e.kind) ==> r.args == [ExcStr(e)] && r.traceback == []
    ensures !IsTranslated(e.kind) ==> r == e
  {
    if IsTranslated(e.kind) then Exception(e.kind, [ExcStr(e)], []) else e
  }

  /** Re-raising an already re-raised failure changes nothing. */
  lemma RekindIdempotent(e: Exception)
    ensures Rekind(Rekind(e)) == Rekind(e)
  {
  }

  // ---------------------------------------------------------------------
  // The external collaborators
  // ---------------------------------------------------------------------

  /**
   * `crds.getreferences(parameters, reftypes=..., observatory=...)`: returns
   * the map from reference type to path, or raises.
   */
  type Engine = (Header, seq<string>, string) -> Result<map<string, string>, Exception>

  /** The observatory the adapter passes to `crds.getreferences`. */
  const Observatory: string := "tmt"

  /** The observatory under which `crds.locate_file` looks a file up. */
  const CacheObservatory: string := "jwst"

  const NotApplicable: string := "N/A"
  const CrdsUriScheme: string := "crds://"
  const OverridePrefix: string := "override_"

  // ---------------------------------------------------------------------
  // Parameter extraction: _clean_flat_dict and _get_data_dict
  // ---------------------------------------------------------------------

  /**
   * `_clean_flat_dict`: the sub-dictionary of the header entries whose value
   * is a scalar, every such entry kept with its value.
   */
  function CleanFlatDict(header: Header): (r: Header)
    ensures AllScalar(r)
    ensures forall k :: k in r ==> k in header && r[k] == header[k]
    ensures forall k :: k in header && IsScalar(header[k]) ==> k in r
  {
    map k | k in header && IsScalar(header[k]) :: header[k]
  }

  /** Cleaning a cleaned dictionary changes nothing. */
  lemma CleanFlatDictIdempotent(header: Header)
    ensures CleanFlatDict(CleanFlatDict(header)) == CleanFlatDict(header)
  {
    var c := CleanFlatDict(header);
    assert CleanFlatDict(c).Keys == c.Keys;
  }

  /** A dictionary that is already all scalars is kept whole. */
  lemma CleanFlatDictKeepsScalarHeader(header: Header)
    requires AllScalar(header)
    ensures CleanFlatDict(header) == header
  {
    assert CleanFlatDict(header).Keys == header.Keys;
  }

  /** An entry with a non-scalar value never reaches the rules. */
  lemma CleanFlatDictDropsNonScalar(header: Header, k: string, v: HeaderValue)
    requires k !in header && !IsScalar(v)
    ensures CleanFlatDict(header[k := v]) == CleanFlatDict(header)
  {
    assert CleanFlatDict(header[k := v]).Keys == CleanFlatDict(header).Keys;
  }

  /**
   * `_get_data_dict`: `flatten` stands for `to_flat_dict(include_arrays=False)`
   * of the data model; its scalar entries are the matching parameters.
   */
  function GetDataDict<D>(flatten: D -> Header, model: D): (r: Header)
    ensures AllScalar(r)
    ensures forall k :: k in r <==> k in flatten(model) && IsScalar(flatten(model)[k])
    ensures forall k :: k in r ==> r[k] == flatten(model)[k]
  {
    CleanFlatDict(flatten(model))
  }

  // ---------------------------------------------------------------------
  // "N/A" normalisation
  // ---------------------------------------------------------------------

  /** "N/A" occurs in the upper-cased path. */
  predicate MentionsNA(path: string) {
    Contains(Upper(path), NotApplicable)
  }

  /** "N/A" in any letter case at index `i` of `path`. */
  predicate NAAt(path: string, i: int) {
    && 0 <= i && i + 3 <= |path|
    && (path[i] == 'n' || path[i] == 'N')
    && path[i + 1] == '/'
    && (path[i + 2] == 'a' || path[i + 2] == 'A')
  }

  /** The sentinel itself mentions "N/A". */
  lemma SentinelMentionsNA()
    ensures MentionsNA(NotApplicable)
  {
    assert Upper(NotApplicable) == NotApplicable;
    assert OccursAt(NotApplicable, NotApplicable, 0);
    OccursAtContains(NotApplicable, NotApplicable, 0);
  }

  /** The upper-cased test matches "n/a", "N/a", "n/A" and "N/A" anywhere in the path. */
  lemma {:induction false} MentionsNAIffAnyCase(path: string)
    ensures MentionsNA(path) <==> exists i :: NAAt(path, i)
  {
    var u := Upper(path);
    ContainsIffOccurs(u, NotApplicable);
    forall i | 0 <= i && i + 3 <= |path|
      ensures OccursAt(u, NotApplicable, i) <==> NAAt(path, i)
    {
      assert u[i..i + 3] == [u[i], u[i + 1], u[i + 2]];
      assert NotApplicable == ['N', '/', 'A'];
      assert UpperChar(path[i]) == 'N' <==> (path[i] == 'n' || path[i] == 'N');
      assert UpperChar(path[i + 1]) == '/' <==> path[i + 1] == '/';
      assert UpperChar(path[i + 2]) == 'A' <==> (path[i + 2] == 'a' || path[i + 2] == 'A');
    }
    if exists i :: NAAt(path, i) {
      var i :| NAAt(path, i);
      assert OccursAt(u, NotApplicable, i);
    }
  }

  /** One path of the result: collapsed to "N/A" when it mentions "N/A", else unchanged. */
  function NormalizePath(path: string): (r: string)
    ensures r == NotApplicable <==> MentionsNA(path)
    ensures !MentionsNA(path) ==> r == path
  {
    SentinelMentionsNA();
    if MentionsNA(path) then NotApplicable else path
  }

  /** Normalising a normalised path changes nothing. */
  lemma NormalizePathIdempotent(path: string)
    ensures NormalizePath(NormalizePath(path)) == NormalizePath(path)
  {
  }

  /**
   * The dictionary comprehension of `_get_refpaths`: the same reference types,
   * each path collapsed to "N/A" exactly when it mentions "N/A" in any case.
   */
  function NormalizeRefpaths(bestrefs: map<string, string>): (r: map<string, string>)
    ensures r.Keys == bestrefs.Keys
    ensures forall t :: t in r ==> (r[t] == NotApplicable <==> MentionsNA(bestrefs[t]))
    ensures forall t :: t in r && !MentionsNA(bestrefs[t]) ==> r[t] == bestrefs[t]
    ensures forall t :: t in r ==> r[t] == NotApplicable || !MentionsNA(r[t])
  {
    map t | t in bestrefs :: NormalizePath(bestrefs[t])
  }

  /** Normalising the normalised result changes nothing. */
  lemma NormalizeRefpathsIdempotent(bestrefs: map<string, string>)
    ensures NormalizeRefpaths(NormalizeRefpaths(bestrefs)) == NormalizeRefpaths(bestrefs)
  {
    var n := NormalizeRefpaths(bestrefs);
    forall t | t in n
      ensures NormalizeRefpaths(n)[t] == n[t]
    {
      NormalizePathIdempotent(bestrefs[t]);
    }
  }

  // ---------------------------------------------------------------------
  // Resolution: _get_refpaths and its callers
  // ---------------------------------------------------------------------

  /**
   * `_get_refpaths`: an empty list of types resolves nothing; otherwise the
   * engine is asked for the types under `Observatory`, its three CRDS failure
   * kinds are re-raised by `Rekind`, and its paths are normalised.
   */
  function GetRefpaths(engine: Engine, dataDict: Header, types: seq<string>)
    : (r: Result<map<string, string>, Exception>)
    ensures |types| == 0 ==> r == Success(map[])
    ensures |types| > 0 && engine(dataDict, types, Observatory).Failure? ==>
      r == Failure(Rekind(engine(dataDict, types, Observatory).error))
    ensures |types| > 0 && engine(dataDict, types, Observatory).Success? ==>
      && r.Success?
      && r.value.Keys == engine(dataDict, types, Observatory).value.Keys
      && forall t :: t in r.value ==>
           (r.value[t] == NotApplicable <==> MentionsNA(engine(dataDict, types, Observatory).value[t]))
           && (!MentionsNA(engine(dataDict, types, Observatory).value[t]) ==>
                 r.value[t] == engine(dataDict, types, Observatory).value[t])
  {
    if |types| == 0 then
      Success(map[])
    else
      match engine(dataDict, types, Observatory)
      case Failure(e) => Failure(Rekind(e))
      case Success(bestrefs) => Success(NormalizeRefpaths(bestrefs))
  }

  /**
   * With no types requested the result is the same whatever the engine and the
   * parameters would do: the engine is not consulted.
   */
  lemma GetRefpathsEmptyIgnoresEngine(e1: Engine, e2: Engine, d1: Header, d2: Header)
    ensures GetRefpaths(e1, d1, []) == GetRefpaths(e2, d2, []) == Success(map[])
  {
  }

  /**
   * With types requested the result depends on the engine only through its
   * answer to that one call.
   */
  lemma GetRefpathsUsesOneEngineCall(e1: Engine, e2: Engine, d: Header, types: seq<string>)
    requires |types| > 0
    requires e1(d, types, Observatory) == e2(d, types, Observatory)
    ensures GetRefpaths(e1, d, types) == GetRefpaths(e2, d, types)
  {
  }

  /**
   * A failure reaches the caller with the same class and the same `str` as the
   * engine's; a CRDS failure loses the engine's traceback, any other exception
   * is passed on as it was raised.
   */
  lemma GetRefpathsFailurePreservesKindAndMessage(engine: Engine, d: Header, types: seq<string>)
    requires GetRefpaths(engine, d, types).Failure?
    ensures engine(d, types, Observatory).Failure?
    ensures var raised := engine(d, types, Observatory).error;
            var e := GetRefpaths(engine, d, types).error;
            && e.kind == raised.kind && ExcStr(e) == ExcStr(raised)
            && (IsTranslated(raised.kind) ==> e.traceback == [])
            && (!IsTranslated(raised.kind) ==> e == raised)
  {
  }

  /** When the engine answers for exactly the requested types, so does the result. */
  lemma GetRefpathsKeysAreRequested(engine: Engine, d: Header, types: seq<string>)
    requires |types| > 0
    requires engine(d, types, Observatory).Success?
    requires engine(d, types, Observatory).value.Keys == set t | t in types
    ensures GetRefpaths(engine, d, types).Success?
    ensures GetRefpaths(engine, d, types).value.Keys == set t | t in types
  {
  }

  /** Every path of a successful result is the sentinel or free of "N/A" in any case. */
  lemma GetRefpathsNoStrayNA(engine: Engine, d: Header, types: seq<string>, t: string)
    requires GetRefpaths(engine, d, types).Success? && t in GetRefpaths(engine, d, types).value
    ensures var p := GetRefpaths(engine, d, types).value[t];
            p == NotApplicable || forall i :: !NAAt(p, i)
  {
    var p := GetRefpaths(engine, d, types).value[t];
    MentionsNAIffAnyCase(p);
  }

  /**
   * `get_multiple_reference_paths`: the scalar header entries of the model are
   * resolved for the requested types.
   */
  function GetMultipleReferencePaths<D>(flatten: D -> Header, model: D, types: seq<string>, engine: Engine)
    : (r: Result<map<string, string>, Exception>)
    ensures |types| == 0 ==> r == Success(map[])
    ensures |types| > 0 ==>
      var raw := engine(CleanFlatDict(flatten(model)), types, Observatory);
      && (raw.Failure? ==> r == Failure(Rekind(raw.error)))
      && (raw.Success? ==> r == Success(NormalizeRefpaths(raw.value)))
  {
    GetRefpaths(engine, GetDataDict(flatten, model), types)
  }

  /**
   * Two models whose headers differ only by an entry with a non-scalar value
   * resolve to the same references.
   */
  lemma GetMultipleIgnoresNonScalarEntry<D>(
    flatten: D -> Header, m1: D, m2: D, k: string, v: HeaderValue, types: seq<string>, engine: Engine)
    requires k !in flatten(m1) && !IsScalar(v)
    requires flatten(m2) == flatten(m1)[k := v]
    ensures GetMultipleReferencePaths(flatten, m2, types, engine)
         == GetMultipleReferencePaths(flatten, m1, types, engine)
  {
    CleanFlatDictDropsNonScalar(flatten(m1), k, v);
  }

  /**
   * `get_refpaths_from_filename`: `openModel` stands for `datamodels.open`;
   * a failure to open propagates.
   */
  function GetRefpathsFromFilename<D>(
    openModel: string -> Result<D, Exception>, flatten: D -> Header,
    filename: string, types: seq<string>, engine: Engine)
    : (r: Result<map<string, string>, Exception>)
    ensures openModel(filename).Failure? ==> r == Failure(openModel(filename).error)
    ensures openModel(filename).Success? ==>
      r == GetMultipleReferencePaths(flatten, openModel(filename).value, types, engine)
  {
    match openModel(filename)
    case Failure(e) => Failure(e)
    case Success(model) => GetMultipleReferencePaths(flatten, model, types, engine)
  }

  /** The `KeyError` of indexing the result by a type it does not hold. */
  function MissingKey(t: string): Exception {
    Exception(KeyError, [t], [])
  }

  /**
   * `get_reference_file` given an open data model: resolve the one type and
   * index the result by it.
   */
  function GetReferenceFile<D>(flatten: D -> Header, model: D, t: string, engine: Engine)
    : (r: Result<string, Exception>)
    ensures var raw := engine(CleanFlatDict(flatten(model)), [t], Observatory);
      && (raw.Failure? ==> r == Failure(Rekind(raw.error)))
      && (raw.Success? && t in raw.value ==>
            r.Success? && (r.value == NotApplicable <==> MentionsNA(raw.value[t]))
            && (!MentionsNA(raw.value[t]) ==> r.value == raw.value[t]))
      && (raw.Success? && t !in raw.value ==> r == Failure(MissingKey(t)))
  {
    match GetMultipleReferencePaths(flatten, model, [t], engine)
    case Failure(e) => Failure(e)
    case Success(paths) => if t in paths then Success(paths[t]) else Failure(MissingKey(t))
  }

  /**
   * `get_reference_file` given a file name: the model is opened for the call
   * (a failure to open propagates) and resolved as above.
   */
  function GetReferenceFileByName<D>(
    openModel: string -> Result<D, Exception>, flatten: D -> Header,
    filename: string, t: string, engine: Engine)
    : (r: Result<string, Exception>)
    ensures openModel(filename).Failure? ==> r == Failure(openModel(filename).error)
    ensures openModel(filename).Success? ==>
      r == GetReferenceFile(flatten, openModel(filename).value, t, engine)
  {
    match openModel(filename)
    case Failure(e) => Failure(e)
    case Success(model) => GetReferenceFile(flatten, model, t, engine)
  }

  // ---------------------------------------------------------------------
  // check_reference_open
  // ---------------------------------------------------------------------

  /** The paths `check_reference_open` does not try to open. */
  predicate SkipsOpen(refpath: string) {
    refpath == NotApplicable || Strip(refpath) == ""
  }

  /** Skipped are the sentinel and the strings that are empty or all whitespace. */
  lemma SkipsOpenIffSentinelOrBlank(refpath: string)
    ensures SkipsOpen(refpath) <==>
      refpath == NotApplicable || forall i :: 0 <= i < |refpath| ==> IsSpace(refpath[i])
  {
    StripBlankIffAllSpace(refpath);
  }

  /**
   * `check_reference_open`: `openForRead` stands for `open(path, "rb")`
   * followed by `close()`, giving the exception it raises if any.  The path is
   * returned unchanged.
   */
  function CheckReferenceOpen(refpath: string, openForRead: string -> Option<Exception>)
    : (r: Result<string, Exception>)
    ensures r.Success? ==> r.value == refpath
    ensures SkipsOpen(refpath) ==> r == Success(refpath)
    ensures !SkipsOpen(refpath) ==>
      (r.Failure? <==> openForRead(refpath).Some?)
      && (r.Failure? ==> r.error == openForRead(refpath).value)
  {
    if !SkipsOpen(refpath) && openForRead(refpath).Some? then
      Failure(openForRead(refpath).value)
    else
      Success(refpath)
  }

  /** For a skipped path no file is touched: the result is the same for any file system. */
  lemma CheckReferenceOpenSkipIgnoresFiles(
    refpath: string, open1: string -> Option<Exception>, open2: string -> Option<Exception>)
    requires refpath == NotApplicable || forall i :: 0 <= i < |refpath| ==> IsSpace(refpath[i])
    ensures CheckReferenceOpen(refpath, open1) == CheckReferenceOpen(refpath, open2) == Success(refpath)
  {
    SkipsOpenIffSentinelOrBlank(refpath);
  }

  // ---------------------------------------------------------------------
  // Override parameter names
  // ---------------------------------------------------------------------

  /** `[_A-Za-z]` */
  predicate IsIdentStart(c: char) {
    c == '_' || 'A' <= c <= 'Z' || 'a' <= c <= 'z'
  }

  /** `[_A-Za-z0-9]` */
  predicate IsIdentChar(c: char) {
    IsIdentStart(c) || '0' <= c <= '9'
  }

  /** A non-empty ASCII identifier. */
  predicate IsIdentifier(s: string) {
    |s| > 0 && IsIdentStart(s[0]) && forall i :: 1 <= i < |s| ==> IsIdentChar(s[i])
  }

  /** Where the greedy `[_A-Za-z0-9]*` starting at `i` stops. */
  function IdentRunEnd(s: string, i: nat): (k: nat)
    requires i <= |s|
    ensures i <= k <= |s|
    ensures forall j :: i <= j < k ==> IsIdentChar(s[j])
    ensures k < |s| ==> !IsIdentChar(s[k])
    decreases |s| - i
  {
    if i < |s| && IsIdentChar(s[i]) then IdentRunEnd(s, i + 1) else i
  }

  /**
   * `re.match('^[_A-Za-z][_A-Za-z0-9]*$', s)`: without MULTILINE, `$` matches
   * at the end of the string and also just before a newline that ends it.
   */
  predicate MatchesTypeNamePattern(s: string) {
    && |s| > 0 && IsIdentStart(s[0])
    && var k := IdentRunEnd(s, 1);
       k == |s| || (k == |s| - 1 && s[k] == '\n')
  }

  /** The pattern accepts the identifiers, and the identifiers followed by one newline. */
  lemma MatchesTypeNamePatternIff(s: string)
    ensures MatchesTypeNamePattern(s) <==>
      IsIdentifier(s) || (|s| >= 2 && s[|s| - 1] == '\n' && IsIdentifier(s[..|s| - 1]))
  {
    if |s| > 0 && IsIdentStart(s[0]) {
      var k := IdentRunEnd(s, 1);
      if IsIdentifier(s) {
        assert k == |s|;
      } else if |s| >= 2 && s[|s| - 1] == '\n' && IsIdentifier(s[..|s| - 1]) {
        assert forall j :: 1 <= j < |s| - 1 ==> IsIdentChar(s[j]);
        assert k == |s| - 1;
      }
    }
  }

  /** The `ValueError` raised for a type name the pattern refuses. */
  function InvalidTypeName(t: string): Exception {
    Exception(ValueError, [Repr(t) + " is not a valid reference file type name. It must be an identifier"], [])
  }

  /**
   * `get_override_name` as written: "override_" + the name when the pattern
   * matches, otherwise a `ValueError` naming the value.
   */
  function GetOverrideName(t: string): (r: Result<string, Exception>)
    ensures r.Success? <==> MatchesTypeNamePattern(t)
    ensures r.Success? ==> StartsWith(r.value, OverridePrefix) && r.value[|OverridePrefix|..] == t
    ensures r.Failure? ==> r == Failure(InvalidTypeName(t))
  {
    if MatchesTypeNamePattern(t) then Success(OverridePrefix + t) else Failure(InvalidTypeName(t))
  }

  /**
   * The pattern lets a trailing newline through: "flat\n" is not an
   * identifier, yet gets the override name "override_flat\n".
   */
  lemma OverrideNameAcceptsTrailingNewline()
    ensures !IsIdentifier("flat\n")
    ensures GetOverrideName("flat\n") == Success("override_flat\n")
  {
    forall i | 1 <= i < 4
      ensures IsIdentChar("flat"[i])
    {
      if i == 1 {} else if i == 2 {} else {}
    }
    assert "flat\n"[..4] == "flat";
    assert IsIdentifier("flat");
    MatchesTypeNamePatternIff("flat\n");
    assert MatchesTypeNamePattern("flat\n");
    assert OverridePrefix + "flat\n" == "override_flat\n";
  }

  /**
   * `get_override_name` as the message "It must be an identifier" intends
   * (the pattern anchored with `\Z`, or `re.fullmatch`).
   */
  function GetOverrideNameStrict(t: string): (r: Result<string, Exception>)
    ensures r.Success? <==> IsIdentifier(t)
    ensures r.Success? ==> r.value == OverridePrefix + t
    ensures r.Failure? ==> r == Failure(InvalidTypeName(t))
  {
    if IsIdentifier(t) then Success(OverridePrefix + t) else Failure(InvalidTypeName(t))
  }

  /** The two agree on every name that does not end in a newline. */
  lemma GetOverrideNameAgreesWithoutNewline(t: string)
    requires |t| == 0 || t[|t| - 1] != '\n'
    ensures GetOverrideName(t) == GetOverrideNameStrict(t)
  {
    MatchesTypeNamePatternIff(t);
  }

  /** The reference type an override parameter name is for, if it is one. */
  function TypeOfOverrideName(name: string): (r: Option<string>)
    ensures r.Some? ==> IsIdentifier(r.value) && name == OverridePrefix + r.value
  {
    if StartsWith(name, OverridePrefix) && IsIdentifier(name[|OverridePrefix|..]) then
      assert name == OverridePrefix + name[|OverridePrefix|..];
      Some(name[|OverridePrefix|..])
    else None
  }

  /** Override names and the types they are for are in one-to-one correspondence. */
  lemma OverrideNameRoundTrip(t: string, name: string)
    ensures GetOverrideNameStrict(t) == Success(name) <==> TypeOfOverrideName(name) == Some(t)
  {
    if GetOverrideNameStrict(t) == Success(name) {
      assert name[|OverridePrefix|..] == t;
    }
  }

  // ---------------------------------------------------------------------
  // reference_uri_to_cache_path
  // ---------------------------------------------------------------------

  /** The `CrdsError` raised for a URI without the `crds://` scheme. */
  function BadUri(uri: string): Exception {
    Exception(CrdsError, ["CRDS reference URI's should start with 'crds://' but got", Repr(uri)], [])
  }

  /**
   * `reference_uri_to_cache_path`: `popCrdsUri` stands for
   * `config.pop_crds_uri` and `locateFile` for `crds.locate_file`.
   */
  function ReferenceUriToCachePath(
    uri: string, popCrdsUri: string -> string, locateFile: (string, string) -> string)
    : (r: Result<string, Exception>)
    ensures r.Success? <==> StartsWith(uri, CrdsUriScheme)
    ensures r.Failure? ==> r.error == BadUri(uri)
    ensures r.Success? ==> r.value == locateFile(popCrdsUri(uri), CacheObservatory)
  {
    if !StartsWith(uri, CrdsUriScheme) then Failure(BadUri(uri))
    else Success(locateFile(popCrdsUri(uri), CacheObservatory))
  }

  /** A rejected URI is rejected before any cache lookup. */
  lemma ReferenceUriRejectIgnoresLookup(
    uri: string, pop1: string -> string, loc1: (string, string) -> string,
    pop2: string -> string, loc2: (string, string) -> string)
    requires !StartsWith(uri, CrdsUriScheme)
    ensures ReferenceUriToCachePath(uri, pop1, loc1) == ReferenceUriToCachePath(uri, pop2, loc2)
  {
  }

  // ---------------------------------------------------------------------
  // Examples
  // ---------------------------------------------------------------------

  /** A path mentioning "n/a" in lower case collapses to the sentinel. */
  lemma NormalizePathLowerCaseExample()
    ensures NormalizePath("NOT FOUND n/a") == NotApplicable
  {
    assert NAAt("NOT FOUND n/a", 10);
    MentionsNAIffAnyCase("NOT FOUND n/a");
  }

  /**
   * A directory name that only looks like "n/a" collapses too: the test is a
   * plain substring test on the upper-cased path.
   */
  lemma NormalizePathDirectoryExample()
    ensures NormalizePath("/data/n/a_dir/ref.fits") == NotApplicable
  {
    assert NAAt("/data/n/a_dir/ref.fits", 6);
    MentionsNAIffAnyCase("/data/n/a_dir/ref.fits");
  }

  lemma OverrideNameExamples()
    ensures GetOverrideName("flat") == Success("override_flat")
    ensures GetOverrideName("_ok9") == Success("override__ok9")
    ensures GetOverrideName("123bad") == Failure(InvalidTypeName("123bad"))
  {
    forall i | 1 <= i < 4
      ensures IsIdentChar("flat"[i]) && IsIdentChar("_ok9"[i])
    {
      if i == 1 {} else if i == 2 {} else {}
    }
    assert IsIdentifier("flat") && IsIdentifier("_ok9");
    MatchesTypeNamePatternIff("flat");
    MatchesTypeNamePatternIff("_ok9");
    assert OverridePrefix + "flat" == "override_flat";
    assert OverridePrefix + "_ok9" == "override__ok9";
  }
}
