/** `run`: a fixed sequence of phases over an abstract cache. The cache is
    the set of paths at which a regular file already exists; a download puts
    the target path into it. */
module Pipeline {
  import opened Wrappers
  import opened Slashes
  import opened BlobUrl
  import opened Executor

  /** What the settings supply. `account` is the result of reading the
      configured account name: `Err(ConfigurationMissing)` when no
      connection string is set, `Err(InvalidUrl)` when the service URL is
      not an account's blob host; `container` is the configured container name as given; `cacheRoot`
      is the cache directory. */
  datatype Config = Config(account: Result<string>, container: string, cacheRoot: string)

  /** One call of `run`: the URL's host and path, the executable's arguments
      and the default text. */
  datatype Request = Request(host: Option<string>, path: string, args: seq<Argument>, default: string)

  /** Where the call is. `Finished` is terminal. */
  datatype Phase =
    | Start
    | Parsed(account: string, container: string, blob: string)
    | Validated(blob: string)
    | Ready(target: string)
    | Finished(result: Result<string>)

  /** The phase, the regular files present, and whether a download happened. */
  datatype Machine = Machine(phase: Phase, files: set<string>, downloaded: bool)

  /** The name of a blob relative to the cache root: no leading or trailing slash. */
  function CacheName(blob: string): (name: string)
    ensures name == [] || (name[0] != '/' && name[|name| - 1] != '/')
  {
    Strip(blob)
  }

  /** The cache root joined with a relative name; an empty name is the root. */
  function TargetPath(root: string, name: string): string {
    if name == [] then root else root + "/" + name
  }

  /** The path at which a blob is cached under the configured root. */
  function Target(cfg: Config, blob: string): string {
    TargetPath(cfg.cacheRoot, CacheName(blob))
  }

  /** One transition. Parsing and validation may end the call with an error
      and touch nothing; the cache phase downloads exactly when no regular
      file is at the target; the last phase hands over to the executable. */
  function Step(cfg: Config, req: Request, spawn: seq<string> -> Outcome, m: Machine): (m': Machine)
    ensures m.phase.Finished? ==> m' == m
    ensures !m.phase.Validated? ==> m'.files == m.files && m'.downloaded == m.downloaded
    ensures m.phase.Start? ==> m'.phase.Parsed? || m'.phase.Finished?
    ensures m.phase.Parsed? ==> m'.phase.Validated? || m'.phase.Finished?
    ensures m.phase.Validated? ==> m'.phase.Ready?
    ensures m.phase.Ready? ==> m'.phase.Finished?
    ensures m.files <= m'.files
    ensures m.downloaded ==> m'.downloaded
    ensures !m'.downloaded ==> m'.files == m.files
    ensures m'.downloaded && !m.downloaded ==>
      && m.phase.Validated? && m'.phase.Ready?
      && m'.phase.target !in m.files && m'.files == m.files + {m'.phase.target}
  {
    match m.phase
    case Start =>
      var account := AccountName(req.host);
      var names := ContainerAndBlob(req.path);
      if account.Err? then m.(phase := Finished(Err(account.error)))
      else if names.Err? then m.(phase := Finished(Err(names.error)))
      else m.(phase := Parsed(account.value, names.value.0, names.value.1))
    case Parsed(account, container, blob) =>
      if cfg.account.Err? then m.(phase := Finished(Err(cfg.account.error)))
      else if account != cfg.account.value then m.(phase := Finished(Err(AccountMismatch)))
      else if container != cfg.container then m.(phase := Finished(Err(ContainerMismatch)))
      else m.(phase := Validated(blob))
    case Validated(blob) =>
      var target := Target(cfg, blob);
      if target in m.files then m.(phase := Ready(target))
      else Machine(Ready(target), m.files + {target}, true)
    case Ready(target) =>
      m.(phase := Finished(RunExecutable(target, req.args, req.default, spawn)))
    case Finished(_) => m
  }

  /** What a path holds on disk. */
  datatype Entry = Absent | Directory | RegularFile

  /** `mkdir(parents=True, exist_ok=True)` on a path: an existing directory is
      excused, an existing regular file raises, and otherwise a directory is
      left there. */
  function MkdirAsWritten(e: Entry): (r: Result<Entry>)
    ensures r.Ok? <==> e != RegularFile
    ensures r.Ok? ==> r.value == Directory
  {
    if e == RegularFile then Err(FileExists) else Ok(Directory)
  }

  /** `open(path, "wb")`: a directory raises, anything else becomes a
      regular file. */
  function OpenForWrite(e: Entry): (r: Result<Entry>)
    ensures r.Ok? <==> e != Directory
    ensures r.Ok? ==> r.value == RegularFile
  {
    if e == Directory then Err(IsADirectory) else Ok(RegularFile)
  }

  /** Lines 150-157 as written, on what the target path holds: `mkdir` on
      the target itself, then the `is_file` test, then `open` before the
      download. The result tells whether a download happened. */
  function CacheTargetAsWritten(e: Entry): (r: Result<bool>)
    ensures r.Err?
    ensures r.Err? ==> (r.error == FileExists <==> e == RegularFile)
  {
    match MkdirAsWritten(e)
    case Err(err) => Err(err)
    case Ok(after) =>
      if after == RegularFile then Ok(false)
      else
        match OpenForWrite(after)
        case Err(err) => Err(err)
        case Ok(_) => Ok(true)
  }

  /** As written, the cache phase raises whatever the target holds: a cached
      file makes `mkdir` raise, and anything else becomes a directory that
      `open` refuses. Neither the cache hit nor the download is reachable. */
  lemma CacheTargetAsWrittenRaises(e: Entry)
    ensures e == RegularFile ==> CacheTargetAsWritten(e) == Err(FileExists)
    ensures e != RegularFile ==> CacheTargetAsWritten(e) == Err(IsADirectory)
  {
  }

  /** A whole call of `run` on a cache, from `Start` with nothing downloaded. */
  function Run(cfg: Config, req: Request, spawn: seq<string> -> Outcome, files: set<string>): (m: Machine)
    ensures m.phase.Finished?
    ensures files <= m.files
    ensures !m.downloaded ==> m.files == files
  {
    var m0 := Machine(Start, files, false);
    Step(cfg, req, spawn, Step(cfg, req, spawn, Step(cfg, req, spawn, Step(cfg, req, spawn, m0))))
  }

  /** A URL whose host and path both parse moves to `Parsed` with the
      account, the container and the blob name, and touches nothing. */
  lemma StartParses(cfg: Config, req: Request, spawn: seq<string> -> Outcome, files: set<string>)
    requires AccountName(req.host).Ok? && ContainerAndBlob(req.path).Ok?
    ensures var names := ContainerAndBlob(req.path).value;
      Step(cfg, req, spawn, Machine(Start, files, false))
        == Machine(Parsed(AccountName(req.host).value, names.0, names.1), files, false)
  {
  }

  /** From `Validated`, the cache phase and the executable finish the call:
      the target is downloaded exactly when it is absent. */
  lemma ValidatedFinishes(cfg: Config, req: Request, spawn: seq<string> -> Outcome, blob: string, files: set<string>)
    ensures var target := Target(cfg, blob);
      Step(cfg, req, spawn, Step(cfg, req, spawn, Machine(Validated(blob), files, false)))
        == Machine(Finished(RunExecutable(target, req.args, req.default, spawn)), files + {target}, target !in files)
  {
    var target := Target(cfg, blob);
    var m3 := Step(cfg, req, spawn, Machine(Validated(blob), files, false));
    assert m3 == Machine(Ready(target), files + {target}, target !in files);
  }

  /** An invalid host fails first, whatever the path and the settings. */
  lemma RunInvalidHost(cfg: Config, req: Request, spawn: seq<string> -> Outcome, files: set<string>)
    requires AccountName(req.host).Err?
    ensures Run(cfg, req, spawn, files) == Machine(Finished(Err(InvalidUrl)), files, false)
  {
    var m1 := Step(cfg, req, spawn, Machine(Start, files, false));
    assert m1 == Machine(Finished(Err(InvalidUrl)), files, false);
  }

  /** With a valid host, an invalid path fails next, whatever the settings. */
  lemma RunInvalidPath(cfg: Config, req: Request, spawn: seq<string> -> Outcome, files: set<string>)
    requires AccountName(req.host).Ok?
    requires ContainerAndBlob(req.path).Err?
    ensures Run(cfg, req, spawn, files) == Machine(Finished(Err(InvalidUrl)), files, false)
  {
    var m1 := Step(cfg, req, spawn, Machine(Start, files, false));
    assert m1 == Machine(Finished(Err(InvalidUrl)), files, false);
  }

  /** With a valid URL, settings that cannot give an account name fail next. */
  lemma RunSettingsError(cfg: Config, req: Request, spawn: seq<string> -> Outcome, files: set<string>)
    requires AccountName(req.host).Ok? && ContainerAndBlob(req.path).Ok?
    requires cfg.account.Err?
    ensures Run(cfg, req, spawn, files) == Machine(Finished(Err(cfg.account.error)), files, false)
  {
    var names := ContainerAndBlob(req.path).value;
    var m1 := Machine(Parsed(AccountName(req.host).value, names.0, names.1), files, false);
    StartParses(cfg, req, spawn, files);
    var m2 := Step(cfg, req, spawn, m1);
    assert m2 == Machine(Finished(Err(cfg.account.error)), files, false);
  }

  /** A URL for another account fails before the container is compared. */
  lemma RunAccountMismatch(cfg: Config, req: Request, spawn: seq<string> -> Outcome, files: set<string>)
    requires AccountName(req.host).Ok? && ContainerAndBlob(req.path).Ok?
    requires cfg.account.Ok? && cfg.account.value != AccountName(req.host).value
    ensures Run(cfg, req, spawn, files) == Machine(Finished(Err(AccountMismatch)), files, false)
  {
    var names := ContainerAndBlob(req.path).value;
    var m1 := Machine(Parsed(AccountName(req.host).value, names.0, names.1), files, false);
    StartParses(cfg, req, spawn, files);
    var m2 := Step(cfg, req, spawn, m1);
    assert m2 == Machine(Finished(Err(AccountMismatch)), files, false);
  }

  /** A URL for the configured account but another container fails. */
  lemma RunContainerMismatch(cfg: Config, req: Request, spawn: seq<string> -> Outcome, files: set<string>)
    requires AccountName(req.host).Ok? && ContainerAndBlob(req.path).Ok?
    requires cfg.account == AccountName(req.host)
    requires ContainerAndBlob(req.path).value.0 != cfg.container
    ensures Run(cfg, req, spawn, files) == Machine(Finished(Err(ContainerMismatch)), files, false)
  {
    var names := ContainerAndBlob(req.path).value;
    var m1 := Machine(Parsed(AccountName(req.host).value, names.0, names.1), files, false);
    StartParses(cfg, req, spawn, files);
    var m2 := Step(cfg, req, spawn, m1);
    assert m2 == Machine(Finished(Err(ContainerMismatch)), files, false);
  }

  /** A URL that passes every check reaches the cache and the executable:
      the download happens exactly when no regular file is at the target,
      only the target is added, and the result is the executable's. */
  lemma RunValid(cfg: Config, req: Request, spawn: seq<string> -> Outcome, files: set<string>)
    requires AccountName(req.host).Ok? && ContainerAndBlob(req.path).Ok?
    requires cfg.account == AccountName(req.host)
    requires ContainerAndBlob(req.path).value.0 == cfg.container
    ensures var target := Target(cfg, ContainerAndBlob(req.path).value.1);
      var m := Run(cfg, req, spawn, files);
      && (m.downloaded <==> target !in files)
      && m.files == files + {target}
      && m.phase.result == RunExecutable(target, req.args, req.default, spawn)
  {
    var names := ContainerAndBlob(req.path).value;
    var m1 := Machine(Parsed(AccountName(req.host).value, names.0, names.1), files, false);
    StartParses(cfg, req, spawn, files);
    var m2 := Step(cfg, req, spawn, m1);
    assert m2 == Machine(Validated(names.1), files, false);
    ValidatedFinishes(cfg, req, spawn, names.1, files);
  }

  /** Every error other than an unsupported argument type is raised before
      anything is downloaded, and leaves the cache as it was. */
  lemma RunFailsBeforeDownload(cfg: Config, req: Request, spawn: seq<string> -> Outcome, files: set<string>)
    ensures var m := Run(cfg, req, spawn, files);
      m.phase.result.Err? && m.phase.result.error != InvalidArgumentType
      ==> !m.downloaded && m.files == files
  {
    var m := Run(cfg, req, spawn, files);
    if AccountName(req.host).Err? {
      RunInvalidHost(cfg, req, spawn, files);
    } else if ContainerAndBlob(req.path).Err? {
      RunInvalidPath(cfg, req, spawn, files);
    } else if cfg.account.Err? {
      RunSettingsError(cfg, req, spawn, files);
    } else if cfg.account.value != AccountName(req.host).value {
      RunAccountMismatch(cfg, req, spawn, files);
    } else if ContainerAndBlob(req.path).value.0 != cfg.container {
      RunContainerMismatch(cfg, req, spawn, files);
    } else {
      RunValid(cfg, req, spawn, files);
    }
  }

  /** A download happens only for a URL naming the configured account and
      container, at the target path of its blob. */
  lemma DownloadOnlyWhenValid(cfg: Config, req: Request, spawn: seq<string> -> Outcome, files: set<string>)
    requires Run(cfg, req, spawn, files).downloaded
    ensures AccountName(req.host).Ok? && ContainerAndBlob(req.path).Ok?
    ensures cfg.account == AccountName(req.host)
    ensures ContainerAndBlob(req.path).value.0 == cfg.container
    ensures Run(cfg, req, spawn, files).files == files + {Target(cfg, ContainerAndBlob(req.path).value.1)}
  {
    RunFailsBeforeDownload(cfg, req, spawn, files);
    if AccountName(req.host).Err? {
      RunInvalidHost(cfg, req, spawn, files);
    } else if ContainerAndBlob(req.path).Err? {
      RunInvalidPath(cfg, req, spawn, files);
    } else if cfg.account.Err? {
      RunSettingsError(cfg, req, spawn, files);
    } else if cfg.account.value != AccountName(req.host).value {
      RunAccountMismatch(cfg, req, spawn, files);
    } else if ContainerAndBlob(req.path).value.0 != cfg.container {
      RunContainerMismatch(cfg, req, spawn, files);
    } else {
      RunValid(cfg, req, spawn, files);
    }
  }

  /** A second call for the same URL finds the file the first one left and
      downloads nothing. */
  lemma SecondRunHitsCache(cfg: Config, req: Request, spawn: seq<string> -> Outcome, files: set<string>)
    ensures var first := Run(cfg, req, spawn, files);
      var second := Run(cfg, req, spawn, first.files);
      !second.downloaded && second.files == first.files
  {
    var first := Run(cfg, req, spawn, files);
    if first.downloaded {
      DownloadOnlyWhenValid(cfg, req, spawn, files);
      RunValid(cfg, req, spawn, first.files);
    } else if Run(cfg, req, spawn, first.files).downloaded {
      DownloadOnlyWhenValid(cfg, req, spawn, first.files);
      RunValid(cfg, req, spawn, files);
    }
  }

  /** An argument of an unsupported type raises only after the URL has been
      accepted, so an uncached blob has already been downloaded. */
  lemma UnsupportedArgumentAfterDownload(cfg: Config, req: Request, spawn: seq<string> -> Outcome, files: set<string>)
    requires AccountName(req.host).Ok? && ContainerAndBlob(req.path).Ok?
    requires cfg.account == AccountName(req.host)
    requires ContainerAndBlob(req.path).value.0 == cfg.container
    requires Target(cfg, ContainerAndBlob(req.path).value.1) !in files
    requires exists i :: 0 <= i < |req.args| && req.args[i].Unsupported?
    ensures var m := Run(cfg, req, spawn, files);
      m.downloaded && m.phase.result == Err(InvalidArgumentType)
  {
    RunValid(cfg, req, spawn, files);
  }

  /** An empty configured container name matches no URL: every call fails
      without downloading. */
  lemma EmptyContainerSettingFails(cfg: Config, req: Request, spawn: seq<string> -> Outcome, files: set<string>)
    requires cfg.container == []
    ensures var m := Run(cfg, req, spawn, files);
      m.phase.result.Err? && !m.downloaded && m.files == files
  {
    if AccountName(req.host).Err? {
      RunInvalidHost(cfg, req, spawn, files);
    } else if ContainerAndBlob(req.path).Err? {
      RunInvalidPath(cfg, req, spawn, files);
    } else if cfg.account.Err? {
      RunSettingsError(cfg, req, spawn, files);
    } else if cfg.account.value != AccountName(req.host).value {
      RunAccountMismatch(cfg, req, spawn, files);
    } else {
      RunContainerMismatch(cfg, req, spawn, files);
    }
  }

  /** The cache name keeps the blob between its leading and trailing
      slashes, and naming it again changes nothing. */
  lemma CacheNameStable(blob: string)
    ensures CacheName(CacheName(blob)) == CacheName(blob)
    ensures Frames(blob, |blob| - |LStrip(blob)|, CacheName(blob))
  {
    StripIdempotent(blob);
    StripFrames(blob);
  }

  /** Blob names that differ only in leading and trailing slashes share one
      cache file, so after either is cached the other is a cache hit. */
  lemma SlashVariantsShareTarget(cfg: Config, lead: string, blob: string, trail: string)
    requires AllSlashes(lead) && AllSlashes(trail)
    ensures Target(cfg, lead + CacheName(blob) + trail) == Target(cfg, blob)
  {
    StripSlashes(lead, CacheName(blob), trail);
    StripIdempotent(blob);
  }
}
