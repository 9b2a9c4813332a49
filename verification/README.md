# azure-blob-run, modelled in Dafny

`azure_blob_run` fetches a blob named by an Azure blob URL into a local cache
directory and runs it as an executable. This model covers the package's one
module, `azure_blob_run/__init__.py`:

- **URL resolution** (`BlobUrl`). `get_account_name` accepts a host of the form
  `<label>.blob.core.windows.net` with `label` over `[a-z0-9]+`.
  `get_container_and_blob_name` strips the leading slashes from the path and
  splits it at the first remaining slash. The host and the path are taken as
  strings that have already been taken out of the URL. An absent host is
  `None`.
- **The `run` pipeline** (`Pipeline`). This is a state machine
  `Start → Parsed → Validated → Ready → Finished` over an abstract cache:
  - The cache is the set of paths where a regular file exists.
  - A flag records whether a download happened.
  - The settings are plain inputs: the result of reading the configured
    account name, the configured container name, and the cache root.
- **`run_executable`** (`Executor`). It builds an argument list that is never
  used, and it raises on an argument of an unsupported type. It then applies
  the outcome policy:
  - exit code 0 returns stdout;
  - a non-zero code returns `default`;
  - a raised exception returns `default`.
  The child process is a parameter `spawn: seq<string> -> Outcome`. The model
  proves that the result depends only on `spawn([exec])`.
- `Slashes` models Python's `lstrip("/")`, `rstrip("/")`, `strip("/")` and
  `split("/", 1)`. `Wrappers` holds `Option`, `Result` and the error kinds.

The code accepts an empty blob name: `"/cont/"` gives `("cont", "")`. It
never passes the arguments to the child. `run` is the only entry point;
nothing fetches a blob and returns its text.

## Model

| member | source | states |
|---|---|---|
| Slashes.LStrip | azure_blob_run/__init__.py:83 | the result is a suffix of the input that does not start with a slash |
| Slashes.LStripRemovesSlashes | azure_blob_run/__init__.py:83 | everything lstrip removes is a slash |
| Slashes.LStripSlashes | azure_blob_run/__init__.py:83 | any run of slashes in front of a string that does not start with one is exactly what lstrip removes |
| Slashes.RStrip | azure_blob_run/__init__.py:148 | the result is a prefix of the input that does not end with a slash |
| Slashes.RStripRemovesSlashes | azure_blob_run/__init__.py:148 | everything rstrip removes is a slash |
| Slashes.RStripSlashes | azure_blob_run/__init__.py:148 | any run of slashes behind a string that does not end with one is exactly what rstrip removes |
| Slashes.StripSlashes | azure_blob_run/__init__.py:148 | slashes put on both sides of a string that neither starts nor ends with one are exactly what strip removes |
| Slashes.Strip | azure_blob_run/__init__.py:148 | the result neither starts nor ends with a slash |
| Slashes.StripFrames | azure_blob_run/__init__.py:148 | the result of strip sits in the input between a run of leading slashes and a run of trailing slashes |
| Slashes.StripIdempotent | azure_blob_run/__init__.py:147-149 | stripping slashes twice gives the same as stripping once |
| Slashes.SplitOnce | azure_blob_run/__init__.py:83 | one part, equal to the input, exactly when there is no slash; otherwise two parts joined by a slash give the input back, and the first part has no slash |
| Slashes.SplitOnceJoin | azure_blob_run/__init__.py:83 | splitting `head + "/" + tail` with a slash-free head gives back exactly `[head, tail]` |
| BlobUrl.AccountName | azure_blob_run/__init__.py:66-78 | success gives an `[a-z0-9]+` label whose host is that label plus `.blob.core.windows.net`; every failure, an absent host included, is an invalid URL |
| BlobUrl.AccountNameAccepts | azure_blob_run/__init__.py:72-78 | every non-empty `[a-z0-9]` label is recovered from its host |
| BlobUrl.AccountNameRejectsLabel | azure_blob_run/__init__.py:72-76 | a label that is empty or has a character outside `[a-z0-9]` (upper case, `-`, `.`) makes the host invalid |
| BlobUrl.AccountNameRejectsSuffix | azure_blob_run/__init__.py:72-76 | a host that does not end in the blob suffix is invalid |
| BlobUrl.AccountNameAsWritten | azure_blob_run/__init__.py:72-78 | the pattern with Python's `$` also accepts a host that ends in the suffix plus one newline |
| BlobUrl.TrailingNewlineAccepted | azure_blob_run/__init__.py:72-76 | the host `acct.blob.core.windows.net` plus a newline is accepted as written and refused by the exact match |
| BlobUrl.AccountNameAsWrittenAgrees | azure_blob_run/__init__.py:72-76 | on hosts without a final newline, the pattern as written and the exact match agree |
| BlobUrl.ContainerAndBlob | azure_blob_run/__init__.py:81-86 | fails exactly when the path has no slash left after its leading slashes are removed; otherwise container + "/" + blob is that path, and the container is non-empty and slash-free |
| BlobUrl.ContainerAndBlobRoundTrip | azure_blob_run/__init__.py:83-86 | any number of leading slashes, then a container, a slash and a blob name, gives back the container and the blob name |
| BlobUrl.EmptyBlobAccepted | azure_blob_run/__init__.py:83-86 | `"/cont/"` gives `("cont", "")` |
| BlobUrl.ContainerOnlyRejected | azure_blob_run/__init__.py:84-85 | a container with nothing after it is an invalid URL |
| Executor.BuildArguments | azure_blob_run/__init__.py:94-103 | raises exactly when some argument has an unsupported type; otherwise it returns the executable followed by single-character elements that concatenate to the serialised arguments |
| Executor.RunExecutable | azure_blob_run/__init__.py:89-121 | raises exactly when some argument has an unsupported type; otherwise the result is `default` or the stdout of the child started with `[exec]` |
| Executor.ZeroExitReturnsStdout | azure_blob_run/__init__.py:105-117 | exit code 0 returns stdout, whatever was written to stderr |
| Executor.FailureReturnsDefault | azure_blob_run/__init__.py:110-121 | a non-zero code or an exception returns `default` and does not raise |
| Executor.OnlyExecIsInvoked | azure_blob_run/__init__.py:105 | the child is started with the one-element list `[exec]`: two runners that agree on it give the same result |
| Executor.ArgumentsNotForwarded | azure_blob_run/__init__.py:94-105 | which supported arguments are passed does not change the result |
| Executor.IntendedArguments | tests/test_run.py:11-33 | the vector the tests evidently expect the child to get: raises exactly when some argument has an unsupported type; otherwise the executable followed by one element per argument, holding that argument's text |
| Executor.IntendedArgumentsSameText | azure_blob_run/__init__.py:94-103 | the intended vector and the one the code builds carry the same concatenated text; only the grouping into elements differs |
| Executor.TextArgumentSplit | azure_blob_run/__init__.py:99 | `extend` splits the text argument `"run"` into three one-character elements, where the intended vector holds `"run"` as one |
| Pipeline.CacheName | azure_blob_run/__init__.py:147-149 | the cache-relative name neither starts nor ends with a slash |
| Pipeline.CacheNameStable | azure_blob_run/__init__.py:147-149 | the cache name is the blob name between its leading and trailing slashes, and taking it twice changes nothing |
| Pipeline.Step | azure_blob_run/__init__.py:124-162 | each transition moves one phase on or finishes; only the cache phase can download; a download adds exactly its target path, which was absent; a finished call stays finished |
| Pipeline.SlashVariantsShareTarget | azure_blob_run/__init__.py:147-152 | blob names that differ only in leading and trailing slashes have the same target path, so once one is cached the other is a cache hit |
| Pipeline.MkdirAsWritten | azure_blob_run/__init__.py:150 | `mkdir` with `exist_ok` succeeds exactly when the path does not hold a regular file, and then leaves a directory there |
| Pipeline.OpenForWrite | azure_blob_run/__init__.py:155 | opening for writing fails exactly on a directory and otherwise leaves a regular file |
| Pipeline.CacheTargetAsWritten | azure_blob_run/__init__.py:150-157 | as written, the cache phase on what the target holds (`mkdir`, then the `is_file` test, then `open`) never completes: it always raises, and the error is FileExistsError exactly when the target is a regular file |
| Pipeline.CacheTargetAsWrittenRaises | azure_blob_run/__init__.py:150-157 | as written, the cache phase raises FileExistsError on a cached file and IsADirectoryError otherwise, so neither the hit nor the download is reachable |
| Pipeline.StartParses | azure_blob_run/__init__.py:133-134 | a URL whose host and path both parse moves on with its account, container and blob name, and the cache is untouched |
| Pipeline.ValidatedFinishes | azure_blob_run/__init__.py:147-162 | once the URL is accepted, the call downloads exactly when no regular file is at the target, adds only the target, and finishes with what the executable returns |
| Pipeline.Run | azure_blob_run/__init__.py:124-162 | a call always finishes; the cache only grows; no download leaves it unchanged |
| Pipeline.RunInvalidHost | azure_blob_run/__init__.py:133 | an invalid host fails first with an invalid-URL error, whatever the path and the settings, and nothing is downloaded |
| Pipeline.RunInvalidPath | azure_blob_run/__init__.py:133-134 | with a valid host, an invalid path fails next, whatever the settings, and nothing is downloaded |
| Pipeline.RunSettingsError | azure_blob_run/__init__.py:136 | with a valid URL, a failure to read the configured account name propagates, and nothing is downloaded |
| Pipeline.RunAccountMismatch | azure_blob_run/__init__.py:136-140 | another account fails with an account mismatch before the container is compared, and nothing is downloaded |
| Pipeline.RunContainerMismatch | azure_blob_run/__init__.py:141-145 | the right account with another container fails with a container mismatch, and nothing is downloaded |
| Pipeline.RunValid | azure_blob_run/__init__.py:147-162 | a URL that passes every check downloads if and only if no regular file is at its target path, adds only that path, and returns what the executable returns |
| Pipeline.RunFailsBeforeDownload | azure_blob_run/__init__.py:133-160 | every error except an unsupported argument type comes before any download and leaves the cache as it was |
| Pipeline.DownloadOnlyWhenValid | azure_blob_run/__init__.py:133-157 | a download happens only for a URL with the configured account and container, and only at its blob's target path |
| Pipeline.SecondRunHitsCache | azure_blob_run/__init__.py:152-160 | a second call for the same URL downloads nothing and leaves the cache as the first call left it |
| Pipeline.UnsupportedArgumentAfterDownload | azure_blob_run/__init__.py:152-162 | an unsupported argument type raises only after an uncached blob has been downloaded |
| Pipeline.EmptyContainerSettingFails | azure_blob_run/__init__.py:141-145 | with an empty configured container name, every call fails without downloading |

## Left out

- `Settings` (lines 29-63): settings loading, building the Azure client and creating the container if it is absent. The configured account is an input: the account name, or the error that reading it raises. The container name and the cache root are plain inputs.
- URL parsing by `yarl` is not modelled. The host and the path arrive already extracted. So the model does not see that `yarl` lowercases the host, which lets an upper-case account label typed in a URL string through.
- File I/O is not modelled: `open` and `download_blob().readinto`. The cache is an abstract set of regular-file paths.
- Line 150 calls `mkdir(parents=True, exist_ok=True)` on the target path itself, not on its parent. As written, every call that passes validation raises before `run_executable`. On a miss, `mkdir` leaves a directory at the target, so `open(target, "wb")` at line 155 raises IsADirectoryError. On a hit, `mkdir` raises FileExistsError, because `exist_ok` only excuses an existing directory. So lines 159-160 are dead code. Pipeline.CacheTargetAsWritten models this and Pipeline.CacheTargetAsWrittenRaises proves it (see "## Findings"). Pipeline.Step instead models the evidently intended reading, with `mkdir` on the parent, which is how lines 152, 155 and 162 treat the target: as a file. Pipeline.ValidatedFinishes, Pipeline.RunValid, Pipeline.SecondRunHitsCache and Pipeline.UnsupportedArgumentAfterDownload rest on that reading.
- Pipeline.TargetPath joins the cache root and the name with one `/`. Further `pathlib` normalisation, such as collapsing `//` inside a blob name, is not modelled.
- Pipeline.RunFailsBeforeDownload: a download and the serialisers are assumed to succeed. In the code, the download can raise out of `run`:
  - `container_client` at line 154;
  - `open` at line 155;
  - `download_blob()` at line 156, for a missing blob or a network failure.
  None of these is inside the `try`. Line 155 creates the target file before line 156 downloads, so a failed download leaves an empty regular file, and every later call takes it as a cache hit. `model_dump_json` and `json.dumps` at lines 97 and 101 can also raise after the download and before the `try`. So "every error except an unsupported argument type comes before any download" holds only for errors the model represents. An empty or all-slash blob name strips to the cache name `""`, so the target is the cache root itself. Pipeline.RunValid then records a download of the root, but in the code `open(cache_root, "wb")` raises IsADirectoryError.
- Which blob a download fetches is not recorded. The code fetches the blob under its unstripped name (line 154), but the file is keyed by the stripped name. Pipeline.SlashVariantsShareTarget states the consequence for the cache.
- Logging is not modelled, and neither is the stderr non-blank test (`str_or_none`), which only affects logging. `pretty_repr` is left out too.
- `subprocess.run` is the `spawn` parameter. A child that never exits is outside the model, because the model has no timeout.
- `model_dump_json` and `json.dumps` are opaque. An argument carries the text its serialiser produced. The serialisers' own exceptions, such as a dict that `json.dumps` cannot encode, are not modelled.
- Executor.RunExecutable: its ensures gives only the shape of the result. The exact stdout-or-default choice is stated by Executor.ZeroExitReturnsStdout and Executor.FailureReturnsDefault.
- The version read at import time (line 16) is not modelled.
- The test files are not modelled, apart from the argument vector that tests/test_run.py expects the child to receive (Executor.IntendedArguments). They need live storage, and they use a fixture and a method that the module does not define.

## Findings

| source | as written | input that shows it | evidently intended | confidence | as-written member | corrected member |
|---|---|---|---|---|---|---|
| azure_blob_run/__init__.py:72-76 | `re.match` with a pattern ending in `$`, and Python's `$` also matches just before a final newline | host `acct.blob.core.windows.net` followed by `"\n"` is accepted and gives `acct` | the whole host must be the label plus the suffix | low; not executed (URL parsing upstream may already drop the newline) | BlobUrl.AccountNameAsWritten, BlobUrl.TrailingNewlineAccepted | BlobUrl.AccountName, BlobUrl.AccountNameAccepts |
| azure_blob_run/__init__.py:150-157 | `mkdir(parents=True, exist_ok=True)` on the target path itself | any URL that passes validation: an uncached target becomes a directory and `open(target, "wb")` raises; a cached target makes `mkdir` raise | `mkdir` on the target's parent, so that the target can be a cached regular file | medium; not executed (follows from the documented `pathlib` and `open` behaviour) | Pipeline.CacheTargetAsWritten, Pipeline.CacheTargetAsWrittenRaises | Pipeline.ValidatedFinishes, Pipeline.RunValid |
| azure_blob_run/__init__.py:94-105 | `run_arguments.extend(argument)` splits each text into characters, and line 105 starts the child with `[exec_filepath]` instead of `run_arguments` | `run(url, "run", "--test", "test")`: the child gets no arguments, while tests/test_run.py:29-33 expects it to see `run` and `--test test` | the child gets the executable followed by one element per argument | medium; not executed (the tests need live storage) | Executor.BuildArguments, Executor.ArgumentsNotForwarded, Executor.TextArgumentSplit | Executor.IntendedArguments, Executor.IntendedArgumentsSameText |

The rest of the model, `Pipeline.Run` included, uses the corrected `BlobUrl.AccountName` and the corrected cache phase. It keeps the as-written invocation of the child: `Pipeline.Run` calls `Executor.RunExecutable`, which starts the child with `[exec]`, because the child is a parameter and the vector it would receive does not change any property the model states about `run`. The as-written half of the second row is modelled on one path's entry only; the cache itself stays an abstract set of regular-file paths.
