/** Which transfer entry owns a file. Two rules coexist in the agent: the settle-delay
    lookup is separator-aware on absolute paths, while dispatch uses a raw string prefix
    of the configured directory. Both take the first entry in configuration order, not
    the longest match. `abs` stands for `filepath.Abs`, which depends on the working
    directory; `None` is its error. */
module Resolve {
  import opened Common
  import opened GoStrings
  import opened Config
  import Paths

  /** A directory claims a file when they are equal or the file lies below it, judged by
      the directory followed by a separator being a prefix of the file. */
  predicate Claims(dirAbs: string, fileAbs: string) {
    HasPrefix(fileAbs, dirAbs + [Paths.Sep]) || fileAbs == dirAbs
  }

  /** The entry's directory can be made absolute and claims the (absolute) file. */
  predicate EntryClaims(e: ConfigEntry, fileAbs: string, abs: string -> Option<string>) {
    abs(e.sourceDirectory).Some? && Claims(abs(e.sourceDirectory).value, fileAbs)
  }

  /** Position of the entry whose delay `GetDelayForFile` returns, if any. */
  function DelayOwner(filePath: string, transfers: seq<ConfigEntry>, abs: string -> Option<string>): (r: Option<nat>)
    ensures r.Some? ==> abs(filePath).Some? && r.value < |transfers|
    ensures r.Some? ==> EntryClaims(transfers[r.value], abs(filePath).value, abs)
    ensures r.Some? ==> forall j :: 0 <= j < r.value ==> !EntryClaims(transfers[j], abs(filePath).value, abs)
    ensures r.None? <==> (abs(filePath).None? ||
                          forall j :: 0 <= j < |transfers| ==> !EntryClaims(transfers[j], abs(filePath).value, abs))
  {
    match abs(filePath)
    case None => None
    case Some(fileAbs) => FirstWhere(transfers, (e: ConfigEntry) => EntryClaims(e, fileAbs, abs))
  }

  /** The source dereferences the owning entry's `Delay` pointer; a nil one would panic. */
  predicate DelayDefined(filePath: string, transfers: seq<ConfigEntry>, abs: string -> Option<string>) {
    var owner := DelayOwner(filePath, transfers, abs);
    owner.Some? ==> transfers[owner.value].delay.Some?
  }

  /** `GetDelayForFile`: the delay of the first entry, in configuration order, whose
      absolute directory claims the absolute file; the default when the file cannot be
      made absolute or no entry claims it. Entries whose directory cannot be made
      absolute are skipped. */
  function GetDelayForFile(filePath: string, transfers: seq<ConfigEntry>, defaultDelay: int,
                           abs: string -> Option<string>): (r: int)
    requires DelayDefined(filePath, transfers, abs)
    ensures abs(filePath).None? ==> r == defaultDelay
    ensures abs(filePath).Some? ==>
      (forall j :: 0 <= j < |transfers| ==> !EntryClaims(transfers[j], abs(filePath).value, abs)) ==> r == defaultDelay
    ensures abs(filePath).Some? ==>
      forall i :: (&& 0 <= i < |transfers|
                   && EntryClaims(transfers[i], abs(filePath).value, abs)
                   && (forall j :: 0 <= j < i ==> !EntryClaims(transfers[j], abs(filePath).value, abs)))
                  ==> transfers[i].delay == Some(r)
  {
    match DelayOwner(filePath, transfers, abs)
    case None => defaultDelay
    case Some(i) => transfers[i].delay.value
  }

  /** The raw-prefix ownership rule of the dispatchers. */
  predicate PrefixOwns(e: ConfigEntry, file: string) {
    HasPrefix(file, e.sourceDirectory)
  }

  /** Position of the first entry whose directory is a raw string prefix of the file. */
  function MatchIndex(file: string, transfers: seq<ConfigEntry>): (r: Option<nat>)
    ensures r.Some? ==> r.value < |transfers| && PrefixOwns(transfers[r.value], file)
    ensures r.Some? ==> forall j :: 0 <= j < r.value ==> !PrefixOwns(transfers[j], file)
    ensures r.None? <==> forall j :: 0 <= j < |transfers| ==> !PrefixOwns(transfers[j], file)
  {
    FirstWhere(transfers, (e: ConfigEntry) => PrefixOwns(e, file))
  }

  /** `FindMatchingTransfer`: the first entry, in configuration order, whose
      `SourceDirectory` is a raw prefix of the file, or an error naming the file. */
  function FindMatchingTransfer(file: string, transfers: seq<ConfigEntry>): (r: Result<ConfigEntry>)
    ensures r.Ok? ==>
      exists i :: (&& 0 <= i < |transfers| && transfers[i] == r.value && PrefixOwns(transfers[i], file)
                   && forall j :: 0 <= j < i ==> !PrefixOwns(transfers[j], file))
    ensures r.Err? <==> forall j :: 0 <= j < |transfers| ==> !PrefixOwns(transfers[j], file)
    ensures r.Err? ==> r.error == "no matching config entry found for file: " + file
  {
    match MatchIndex(file, transfers)
    case None => Err("no matching config entry found for file: " + file)
    case Some(i) => Ok(transfers[i])
  }

  /** Whatever the delay lookup's separator-aware rule claims, the raw prefix rule claims
      too (when paths are already absolute): the raw rule is the more permissive one. */
  lemma ClaimImpliesRawPrefix(dir: string, file: string)
    requires Claims(dir, file)
    ensures HasPrefix(file, dir)
  {
    if file != dir {
      assert file[..|dir|] == (dir + [Paths.Sep])[..|dir|];
    }
  }

  /** The two rules differ: "/d/in" is a raw prefix of "/d/inbox/f", so the dispatchers
      hand that file to the "/d/in" entry, while the delay lookup does not. */
  lemma RawPrefixOverclaims()
    ensures HasPrefix("/d/inbox/f", "/d/in")
    ensures !Claims("/d/in", "/d/inbox/f")
  {
    assert ("/d/inbox/f")[..6][5] != ("/d/in/")[5];
  }

  /** The first match wins even when a later entry is more specific: with "/d" before
      "/d/in", a file under "/d/in" is dispatched by the "/d" entry. */
  lemma FirstMatchNotLongest(general: ConfigEntry, specific: ConfigEntry)
    requires general.sourceDirectory == "/d" && specific.sourceDirectory == "/d/in"
    ensures FindMatchingTransfer("/d/in/f", [general, specific]) == Ok(general)
  {
    assert PrefixOwns(general, "/d/in/f") by { assert ("/d/in/f")[..2] == "/d"; }
  }
}
