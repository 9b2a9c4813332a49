/** Resolution of a blob URL's host and path into the storage account,
    the container and the blob name. The host and the path arrive already
    separated from the URL; an absent host is `None`. */
module BlobUrl {
  import opened Wrappers
  import opened Slashes

  /** The fixed host suffix of the public Azure blob endpoint. */
  const Suffix: string := ".blob.core.windows.net"

  /** The character class `[a-z0-9]`. */
  predicate IsAccountChar(c: char) {
    'a' <= c <= 'z' || '0' <= c <= '9'
  }

  /** A non-empty run of `[a-z0-9]`: what `[a-z0-9]+` matches. */
  predicate IsAccountLabel(s: string) {
    |s| > 0 && forall i :: 0 <= i < |s| ==> IsAccountChar(s[i])
  }

  /** The name when `h` is exactly an account name followed by `Suffix`. */
  function MatchHost(h: string): (r: Option<string>)
    ensures r.Some? ==> IsAccountLabel(r.value) && h == r.value + Suffix
  {
    var n := |h| - |Suffix|;
    if n > 0 && h[n..] == Suffix && IsAccountLabel(h[..n]) then Some(h[..n]) else None
  }

  /** `get_account_name`, with the host matched against the whole pattern.
      It succeeds exactly on hosts `L + Suffix` with `L` an account name,
      and then yields `L`; everything else, an absent host included, is an
      invalid URL. */
  function AccountName(host: Option<string>): (r: Result<string>)
    ensures r.Ok? ==> IsAccountLabel(r.value) && host == Some(r.value + Suffix)
    ensures r.Err? ==> r.error == InvalidUrl
  {
    if host.None? then Err(InvalidUrl)
    else match MatchHost(host.value)
      case Some(name) => Ok(name)
      case None => Err(InvalidUrl)
  }

  /** Every account name is recovered from its host. */
  lemma AccountNameAccepts(name: string)
    requires IsAccountLabel(name)
    ensures AccountName(Some(name + Suffix)) == Ok(name)
  {
    var h := name + Suffix;
    assert h[|name|..] == Suffix;
    assert h[..|name|] == name;
  }

  /** A name with any character outside `[a-z0-9]` (an upper-case letter,
      `-`, `.`, ...), or an empty one, makes the host invalid. */
  lemma AccountNameRejectsLabel(name: string)
    requires !IsAccountLabel(name)
    ensures AccountName(Some(name + Suffix)) == Err(InvalidUrl)
  {
  }

  /** A host that does not end in the blob suffix is invalid. */
  lemma AccountNameRejectsSuffix(h: string)
    requires |h| < |Suffix| || h[|h| - |Suffix|..] != Suffix
    ensures AccountName(Some(h)) == Err(InvalidUrl)
  {
  }

  /** `get_account_name` as written: Python's `$` matches at the end of the
      string and also just before a final newline, so the pattern accepts a
      host that carries one trailing `"\n"` after the suffix. */
  function AccountNameAsWritten(host: Option<string>): (r: Result<string>)
    ensures r.Ok? ==> IsAccountLabel(r.value)
    ensures r.Ok? ==> host == Some(r.value + Suffix) || host == Some(r.value + Suffix + "\n")
    ensures r.Err? ==> r.error == InvalidUrl
  {
    if host.None? then Err(InvalidUrl)
    else
      var h := host.value;
      match MatchHost(h)
      case Some(name) => Ok(name)
      case None =>
        if |h| > 0 && h[|h| - 1] == '\n' then
          match MatchHost(h[..|h| - 1])
          case Some(name) =>
            assert h == h[..|h| - 1] + "\n";
            Ok(name)
          case None => Err(InvalidUrl)
        else Err(InvalidUrl)
  }

  /** The as-written pattern lets a trailing newline through that the exact
      match refuses. */
  lemma TrailingNewlineAccepted()
    ensures AccountNameAsWritten(Some("acct.blob.core.windows.net\n")) == Ok("acct")
    ensures AccountName(Some("acct.blob.core.windows.net\n")) == Err(InvalidUrl)
  {
    var h := "acct.blob.core.windows.net\n";
    assert h[..|h| - 1] == "acct" + Suffix;
    AccountNameAccepts("acct");
    AccountNameRejectsSuffix(h);
  }

  /** On hosts without a final newline the two agree. */
  lemma AccountNameAsWrittenAgrees(host: Option<string>)
    requires host.None? || host.value == [] || host.value[|host.value| - 1] != '\n'
    ensures AccountNameAsWritten(host) == AccountName(host)
  {
  }

  /** `get_container_and_blob_name`: the path without its leading slashes is
      split at its first slash into a non-empty, slash-free container and
      the rest as blob name; a path with no slash left is invalid. */
  function ContainerAndBlob(path: string): (r: Result<(string, string)>)
    ensures r.Err? <==> '/' !in LStrip(path)
    ensures r.Err? ==> r.error == InvalidUrl
    ensures r.Ok? ==> r.value.0 + "/" + r.value.1 == LStrip(path)
    ensures r.Ok? ==> |r.value.0| > 0 && '/' !in r.value.0
  {
    var parts := SplitOnce(LStrip(path));
    if |parts| != 2 then Err(InvalidUrl)
    else
      assert parts[0] == [] ==> LStrip(path)[0] == '/';
      Ok((parts[0], parts[1]))
  }

  /** Any run of leading slashes, a container, a slash and a blob name come
      back out as the container and the blob name: the inverse of building
      the path. */
  lemma ContainerAndBlobRoundTrip(lead: string, container: string, blob: string)
    requires AllSlashes(lead)
    requires |container| > 0 && '/' !in container
    ensures ContainerAndBlob(lead + container + "/" + blob) == Ok((container, blob))
  {
    var t := container + "/" + blob;
    assert t[0] == container[0];
    assert lead + container + "/" + blob == lead + t;
    LStripSlashes(lead, t);
    SplitOnceJoin(container, blob);
  }

  /** An empty blob part is accepted: `"/cont/"` gives `("cont", "")`. */
  lemma EmptyBlobAccepted()
    ensures ContainerAndBlob("/cont/") == Ok(("cont", ""))
  {
    assert "/cont/" == "/" + "cont" + "/" + "";
    ContainerAndBlobRoundTrip("/", "cont", "");
  }

  /** A container with nothing after it is invalid, whatever slashes lead. */
  lemma ContainerOnlyRejected(lead: string, container: string)
    requires AllSlashes(lead)
    requires |container| > 0 && '/' !in container
    ensures ContainerAndBlob(lead + container) == Err(InvalidUrl)
  {
    assert container[0] != '/';
    LStripSlashes(lead, container);
  }
}
