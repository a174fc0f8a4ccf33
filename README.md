# CRDS client adapter of the JWST pipeline, in Dafny

This project models `jwst/stpipe/crds_client.py`, the adapter between the JWST
calibration pipeline and the CRDS best-reference library. For each reference
type a step asks for, the adapter returns the path of the calibration file
CRDS selects, or the sentinel `"N/A"`. The model covers what the adapter
decides itself:

- **Parameter extraction.** `_clean_flat_dict` and `_get_data_dict` keep only
  the header entries whose value is a string, integer, float, complex or bool.
- **Resolution.** `_get_refpaths` reads an empty list of types as "nothing",
  without asking CRDS. It re-raises CRDS's three failure kinds as the same
  kind with a string message. It collapses every path that mentions "N/A" in
  any letter case to exactly `"N/A"`.
- **Composition.** `get_multiple_reference_paths`, `get_refpaths_from_filename`
  and both forms of `get_reference_file`.
- **Override names.** `get_override_name` derives the name of the override
  parameter for a reference type.
- **URI guard.** `reference_uri_to_cache_path` refuses any URI without the
  `crds://` scheme.
- **Readability check.** `check_reference_open` skips `"N/A"` and blank paths
  and returns its argument unchanged.

The CRDS library, the data-model layer and the file system are function
parameters:

| parameter | stands for |
|---|---|
| `Engine` | `crds.getreferences` |
| `flatten` | `to_flat_dict(include_arrays=False)` |
| `openModel` | `datamodels.open` |
| `openForRead` | `open(path, "rb")` |
| `popCrdsUri`, `locateFile` | `config.pop_crds_uri`, `crds.locate_file` |

A raised exception is `Failure(Exception(kind, args, traceback))` of a `Result`.

Files:

- `wrappers.dfy` holds `Option` and `Result`.
- `pystr.dfy` (module `PyStr`) models the Python string built-ins the adapter
  uses: `isspace`, `strip`, `upper`, `startswith`, `in` and `repr`.
- `crds_client.dfy` (module `CrdsClient`) holds the adapter.

Three places where the code is easy to misread:

- `_get_refpaths` passes `observatory="tmt"` to `crds.getreferences`. It does
  not pass the JWST domain. `reference_uri_to_cache_path` looks files up under
  `"jwst"`. Both constants are kept as written (`Observatory`,
  `CacheObservatory`).
- The result of `get_multiple_reference_paths` has exactly the keys CRDS
  returns. The adapter does not force one entry per requested type.
  `GetRefpathsKeysAreRequested` states this only when CRDS answers for exactly
  the requested types.
- When the requested type is missing from the result, `get_reference_file`
  fails with a `KeyError` from dict indexing. It does not raise a CRDS lookup
  error.

## Model

| member | source | states |
|---|---|---|
| `CrdsClient.CleanFlatDict` | jwst/stpipe/crds_client.py:84-87 | the result is a sub-map of the header; every kept value is a scalar; every scalar-valued header entry is kept with its value |
| `CrdsClient.CleanFlatDictIdempotent` | jwst/stpipe/crds_client.py:84-87 | cleaning a cleaned dictionary changes nothing |
| `CrdsClient.CleanFlatDictKeepsScalarHeader` | jwst/stpipe/crds_client.py:84-87 | a header whose values are all scalars is kept whole |
| `CrdsClient.CleanFlatDictDropsNonScalar` | jwst/stpipe/crds_client.py:86-87 | adding an entry with a non-scalar value does not change the cleaned dictionary |
| `CrdsClient.GetDataDict` | jwst/stpipe/crds_client.py:76-82 | the parameters are exactly the scalar entries of the flattened header, with their values |
| `CrdsClient.Rekind` | jwst/stpipe/crds_client.py:102-107 | a BadRules, BadReference or Lookup failure becomes the same kind with the single argument `str(exc)`, no traceback and the same `str`; any other exception is unchanged |
| `CrdsClient.RekindIdempotent` | jwst/stpipe/crds_client.py:102-107 | re-raising an already re-raised failure changes nothing |
| `PyStr.Upper` | jwst/stpipe/crds_client.py:108 | `upper()` keeps the length and maps each ASCII lower-case letter to its upper case and every other character to itself |
| `PyStr.ContainsIffOccurs` | jwst/stpipe/crds_client.py:108 | the recursive substring test `sub in s` holds exactly when `sub` occurs at some index of `s` |
| `CrdsClient.SentinelMentionsNA` | jwst/stpipe/crds_client.py:108-109 | the sentinel `"N/A"` itself passes the "N/A" test, so the collapse is stable |
| `CrdsClient.MentionsNAIffAnyCase` | jwst/stpipe/crds_client.py:108 | the upper-cased test holds exactly when "n/a" occurs in the path in any letter case |
| `CrdsClient.NormalizePath` | jwst/stpipe/crds_client.py:108 | the result is `"N/A"` exactly when the path mentions "N/A"; otherwise it is the path unchanged |
| `CrdsClient.NormalizePathIdempotent` | jwst/stpipe/crds_client.py:108-109 | normalising a normalised path changes nothing |
| `CrdsClient.NormalizeRefpaths` | jwst/stpipe/crds_client.py:108-109 | same keys as the CRDS result; each value is `"N/A"` exactly when the path mentions "N/A", otherwise the path unchanged; no value but the sentinel mentions "N/A" |
| `CrdsClient.NormalizeRefpathsIdempotent` | jwst/stpipe/crds_client.py:108-109 | normalising the normalised map changes nothing |
| `CrdsClient.GetRefpaths` | jwst/stpipe/crds_client.py:91-110 | no types gives `{}`; an engine failure gives the re-raised failure; an engine answer gives a map with the same keys and the normalised paths |
| `CrdsClient.GetRefpathsEmptyIgnoresEngine` | jwst/stpipe/crds_client.py:97-98 | with no types the result is `{}` whatever the engine and parameters, so CRDS is not consulted |
| `CrdsClient.GetRefpathsUsesOneEngineCall` | jwst/stpipe/crds_client.py:99-101 | with types, the result depends on the engine only through its answer for these parameters, these types and observatory "tmt" |
| `CrdsClient.GetRefpathsFailurePreservesKindAndMessage` | jwst/stpipe/crds_client.py:99-107 | every failure comes from the engine with the same kind and the same `str`; the three CRDS kinds lose the engine traceback; other exceptions pass unchanged |
| `CrdsClient.GetRefpathsKeysAreRequested` | jwst/stpipe/crds_client.py:101-109 | if CRDS answers for exactly the requested types, the result has exactly one entry per requested type |
| `CrdsClient.GetRefpathsNoStrayNA` | jwst/stpipe/crds_client.py:108-109 | every path in a successful result is `"N/A"` or contains no "n/a" in any case |
| `CrdsClient.GetMultipleReferencePaths` | jwst/stpipe/crds_client.py:63-72 | no types gives `{}`; otherwise the engine sees the cleaned header, and its failure or its normalised answer is the result |
| `CrdsClient.GetMultipleIgnoresNonScalarEntry` | jwst/stpipe/crds_client.py:70-71 | two models whose headers differ only by a non-scalar entry resolve to the same references |
| `CrdsClient.GetRefpathsFromFilename` | jwst/stpipe/crds_client.py:52-57 | a failure to open the file propagates; otherwise the opened model is resolved |
| `CrdsClient.GetReferenceFile` | jwst/stpipe/crds_client.py:124-150 | resolves the single type; an engine failure is re-raised; a present type gives its normalised path; an absent type raises `KeyError(type)` |
| `CrdsClient.GetReferenceFileByName` | jwst/stpipe/crds_client.py:145-148 | a failure to open the file propagates; otherwise the opened model is resolved as `GetReferenceFile` does |
| `PyStr.LStrip` | jwst/stpipe/crds_client.py:119 | `lstrip()` keeps a suffix of the string; every dropped character is whitespace; a non-empty result does not start with whitespace |
| `PyStr.RStrip` | jwst/stpipe/crds_client.py:119 | `rstrip()` keeps a prefix of the string; every dropped character is whitespace; a non-empty result does not end with whitespace |
| `PyStr.StripBlankIffAllSpace` | jwst/stpipe/crds_client.py:119 | `s.strip() == ""` exactly when every character of `s` is whitespace |
| `CrdsClient.SkipsOpenIffSentinelOrBlank` | jwst/stpipe/crds_client.py:119 | the file is not opened exactly for `"N/A"` and for empty or whitespace-only paths |
| `CrdsClient.CheckReferenceOpen` | jwst/stpipe/crds_client.py:114-122 | on success the path is returned unchanged; a skipped path always succeeds; otherwise it fails exactly when opening raises, with that exception |
| `CrdsClient.CheckReferenceOpenSkipIgnoresFiles` | jwst/stpipe/crds_client.py:119-122 | for `"N/A"` and blank paths the result is the same for any file system, so no file is touched |
| `CrdsClient.IdentRunEnd` | jwst/stpipe/crds_client.py:169 | the greedy `[_A-Za-z0-9]*` run from `i` ends at the first non-identifier character or at the end |
| `CrdsClient.MatchesTypeNamePatternIff` | jwst/stpipe/crds_client.py:169 | the pattern matches exactly the identifiers and the identifiers followed by one trailing newline |
| `CrdsClient.GetOverrideName` | jwst/stpipe/crds_client.py:153-173 | succeeds exactly when the pattern matches; the result starts with "override_" and the rest is the name; otherwise a `ValueError` with the name's repr |
| `CrdsClient.OverrideNameAcceptsTrailingNewline` | jwst/stpipe/crds_client.py:169-173 | "flat\n" is not an identifier, yet `get_override_name` returns "override_flat\n" |
| `CrdsClient.GetOverrideNameStrict` | jwst/stpipe/crds_client.py:169-173 | succeeds exactly when the name is a non-empty identifier, giving "override_" + name; otherwise the same `ValueError` |
| `CrdsClient.GetOverrideNameAgreesWithoutNewline` | jwst/stpipe/crds_client.py:169 | for a name not ending in a newline, the written and the corrected forms agree |
| `CrdsClient.TypeOfOverrideName` | jwst/stpipe/crds_client.py:173 | a recovered type is an identifier and "override_" + it is the name |
| `CrdsClient.OverrideNameRoundTrip` | jwst/stpipe/crds_client.py:173 | `name` is the override name of `t` exactly when removing the 9-character prefix from `name` gives back `t` |
| `CrdsClient.OverrideNameExamples` | jwst/stpipe/crds_client.py:169-173 | "flat" gives "override_flat"; "_ok9" gives "override__ok9"; "123bad" raises `ValueError` |
| `CrdsClient.ReferenceUriToCachePath` | jwst/stpipe/crds_client.py:181-197 | succeeds exactly when the URI starts with "crds://", with the file located under "jwst"; otherwise a `CrdsError` naming the URI |
| `CrdsClient.ReferenceUriRejectIgnoresLookup` | jwst/stpipe/crds_client.py:194-195 | a URI without the scheme is refused before any cache lookup |
| `CrdsClient.NormalizePathLowerCaseExample` | jwst/stpipe/crds_client.py:108 | "NOT FOUND n/a" collapses to "N/A" |
| `CrdsClient.NormalizePathDirectoryExample` | jwst/stpipe/crds_client.py:108 | "/data/n/a_dir/ref.fits" collapses to "N/A": a plain substring test has this false positive |

## Findings

| source | as written | input that shows it | evidently intended | confidence | as-written member | corrected member |
|---|---|---|---|---|---|---|
| jwst/stpipe/crds_client.py:169 | `re.match('^[_A-Za-z][_A-Za-z0-9]*$', ...)`: without MULTILINE, `$` also matches just before a final newline | `"flat\n"` is accepted and gives `"override_flat\n"` | accept identifiers only, as the error message says (`\Z` or `re.fullmatch`) | not executed; high (documented behaviour of `$` in Python's `re`) | `CrdsClient.GetOverrideName`, `CrdsClient.OverrideNameAcceptsTrailingNewline` | `CrdsClient.GetOverrideNameStrict`, `CrdsClient.OverrideNameRoundTrip` |

## Left out

- The CRDS cache lock (jwst/stpipe/crds_client.py:100) is not modelled. It gives cross-process mutual exclusion around the engine call. Its errors are re-raised only after the lock is released.
- The inside of `crds.getreferences`, `crds.locate_file`, `config.pop_crds_uri`, `datamodels.open` and `to_flat_dict` is not modelled. These are foreign library calls, so they are function parameters.
- `CrdsClient.ReferenceUriToCachePath` does not model exceptions raised by `pop_crds_uri` or `locate_file`. Both are treated as total functions.
- `CrdsClient.GetMultipleReferencePaths` treats `flatten` (`to_flat_dict`) as a total function. In the source, `_get_data_dict` runs before the empty-types test, so an exception from `to_flat_dict` escapes even for an empty type list. The model's "no types gives `{}`" holds only when flattening does not raise. The same applies to `GetReferenceFile` and the two by-name forms.
- `CrdsClient.CheckReferenceOpen` does not model the file system. `open(path, "rb")`/`close()` is a parameter that reports the exception it would raise.
- `get_svn_version` and `get_context_used` are not modelled. They only pass through `crds.__version__` and `heavy_client.get_processing_mode`.
- Python 3's implicit exception chaining (`__context__`) of the re-raised exceptions is not modelled. The traceback is modelled as the list of frames an exception carries.
- `CrdsClient.Rekind` treats exception classes as flat. A subclass of one of the three CRDS kinds would be re-raised as the base class; the model has no subclasses.
- Exception `args` are modelled as strings. `PyStr.Repr` models the choice of quote and the escapes of backslash, quote, `\n`, `\r` and `\t`. It does not model the `\x..`/`\u....` escapes of non-printable characters.
- `PyStr.Upper` maps ASCII letters only. Python's full Unicode case mapping (for example "ß" to "SS") is not modelled.
- Float and complex header values are carried as real numbers and never inspected. NaN and infinities are not modelled.
- Numpy scalars that subclass a kept Python type (`np.float64`, `np.complex128`, `np.str_`) pass the `isinstance` test. They are carried as `FloatValue`, `ComplexValue` or `StrValue`.
- Numpy scalars that subclass none of them (`np.int64`, `np.float32`, `np.bool_`, `np.bytes_`) are `ObjectValue`s and are dropped.
- CRDS's own "empty type list means all types" default is not modelled. The adapter never passes an empty list to the engine.
- `jwst/tests_nightly/general/associations/test_sdp_pools.py` is not modelled. It is regression-test scaffolding that diffs generated association files.
