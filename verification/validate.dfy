/** `ValidateConfig` of config/validate_config.go: every problem of a loaded configuration,
    collected in a fixed order and reported as one "; "-separated error. The file-system
    probes (`os.Stat`, the temporary-file write test), `filepath.Abs` and the regular
    expression compiler are oracles. */
module Validate {
  import opened Common
  import opened GoStrings
  import opened Config
  import Paths

  /** What the validator may ask the outside world. */
  datatype Probes = Probes(
    isDir: string -> bool,
    isFile: string -> bool,
    canCreateIn: string -> bool,
    abs: string -> Option<string>,
    re: RegexEngine)

  /** `isValidLogLevel`: trimmed and lowered, one of the level names or empty. */
  predicate IsValidLogLevel(s: string) {
    Keyword(s) in {"debug", "info", "warn", "warning", "error", ""}
  }

  /** `isValidPort`: not blank, and the untrimmed text is a decimal integer from 1 to 65535. */
  predicate IsValidPort(p: string) {
    !IsBlank(p) && Atoi(p).Some? && 1 <= Atoi(p).value <= 65535
  }

  /** `isValidAction`. */
  predicate IsValidAction(a: string) {
    Keyword(a) in {"", "none", "archive", "delete"}
  }

  /** `isArchive`. */
  predicate IsArchive(a: string) {
    Keyword(a) == "archive"
  }

  /** `isDirOrCreatable`: the path is a directory, or its parent is a directory in which a
      file can be created. */
  predicate IsDirOrCreatable(p: string, probes: Probes) {
    probes.isDir(p) || (probes.isDir(Paths.Dir(p)) && probes.canCreateIn(Paths.Dir(p)))
  }

  datatype TopIssue = BadLogLevel(level: string) | NoTransfers

  /** The transfer types with a remote side, as the messages name them. */
  datatype Remote = Sftp | Scp

  function RemoteName(kind: Remote): string {
    match kind
    case Sftp => "SFTP"
    case Scp => "SCP"
  }

  /** How the validator reads `TransferType`: as a keyword, case and surrounding space
      ignored. */
  datatype TypeKeyword = SftpType | LocalType | ScpType | OtherType

  function ReadTransferType(s: string): TypeKeyword {
    var k := Keyword(s);
    if k == "sftp" then SftpType
    else if k == "local" then LocalType
    else if k == "scp" then ScpType
    else OtherType
  }

  /** Each type is recognised by its keyword, and a blank setting names no type. */
  lemma ReadTransferTypeSpec(s: string)
    ensures ReadTransferType(s) == SftpType <==> Keyword(s) == "sftp"
    ensures ReadTransferType(s) == LocalType <==> Keyword(s) == "local"
    ensures ReadTransferType(s) == ScpType <==> Keyword(s) == "scp"
    ensures IsBlank(s) ==> ReadTransferType(s) == OtherType
  {
    KeywordEmptyIffBlank(s);
  }

  /** One problem of one transfer entry. */
  datatype Problem =
    | NameRequired
    | DuplicateName(name: string)
    | SourceDirRequired
    | SourceDirMissing(dir: string)
    | UsernameRequired(kind: Remote)
    | ServerRequired(kind: Remote)
    | BadPort(port: string, kind: Remote)
    | RemotePathRequired
    | AuthRequired
    | KeyFileMissing(path: string)
    | TransferTypeRequired
    | UnsupportedTransferType(transferType: string)
    | BadFilter(filter: string, reason: string)
    | BadActionOnSuccess(action: string)
    | BadActionOnFail(action: string)
    | ArchiveDestUnusable(dest: string)
    | FailDestUnusable(dest: string)

  datatype Issue = Top(top: TopIssue) | Entry(index: nat, problem: Problem)

  /** `%q` of a string without escapes. */
  function Quote(s: string): string {
    "\"" + s + "\""
  }

  function RenderProblem(p: Problem): string {
    match p
    case NameRequired => "name is required"
    case DuplicateName(n) => "duplicate name " + Quote(n)
    case SourceDirRequired => "source_directory is required"
    case SourceDirMissing(d) => "source_directory " + Quote(d) + " does not exist or is not a directory"
    case UsernameRequired(k) => "username is required for " + RemoteName(k)
    case ServerRequired(k) => "server is required for " + RemoteName(k)
    case BadPort(port, k) => "port " + Quote(port) + " must be an integer 1-65535 for " + RemoteName(k)
    case RemotePathRequired => "remotepath is required for SFTP"
    case AuthRequired => "either privatekey or password must be provided for SFTP"
    case KeyFileMissing(path) => "privatekey file " + Quote(path) + " not found or unreadable"
    case TransferTypeRequired => "transfertype is required"
    case UnsupportedTransferType(t) => "unsupported transfertype " + Quote(t) + " (allowed: sftp, local, scp)"
    case BadFilter(f, reason) => "filter " + Quote(f) + " is not a valid regex: " + reason
    case BadActionOnSuccess(a) => "action_on_success " + Quote(a) + " invalid (allowed: none, archive, delete)"
    case BadActionOnFail(a) => "action_on_fail " + Quote(a) + " invalid (allowed: none, archive, delete)"
    case ArchiveDestUnusable(d) => "archive_dest " + Quote(d) + " does not exist and cannot be created"
    case FailDestUnusable(d) => "fail_dest " + Quote(d) + " does not exist and cannot be created"
  }

  /** The message `addf` appends for an issue; entry problems carry the "transfer[i]"
      prefix. */
  function Render(issue: Issue): (r: string)
    ensures issue.Entry? ==> HasPrefix(r, "transfer[" + NatToString(issue.index) + "]: ")
  {
    match issue
    case Top(BadLogLevel(l)) => "invalid loglevel " + Quote(l) + " (allowed: debug, info, warn, error)"
    case Top(NoTransfers) => "no transfers defined"
    case Entry(i, p) =>
      var prefix := "transfer[" + NatToString(i) + "]: ";
      var r := prefix + RenderProblem(p);
      assert r[..|prefix|] == prefix;
      r
  }

  function RenderAll(issues: seq<Issue>): (r: seq<string>)
    ensures |r| == |issues|
    ensures forall k :: 0 <= k < |issues| ==> r[k] == Render(issues[k])
  {
    seq(|issues|, k requires 0 <= k < |issues| => Render(issues[k]))
  }

  /** The configuration-wide problems: a non-empty level name the logger does not know,
      and an empty transfer list. */
  function TopIssues(cfg: ConfigData): (r: seq<Issue>)
    ensures forall x :: x in r ==> x.Top?
    ensures Top(NoTransfers) in r <==> |cfg.transfers| == 0
    ensures (exists l :: Top(BadLogLevel(l)) in r) <==> !IsValidLogLevel(cfg.logLevel)
    ensures forall l :: Top(BadLogLevel(l)) in r ==> l == cfg.logLevel
  {
    (if !IsValidLogLevel(cfg.logLevel) && cfg.logLevel != "" then [Top(BadLogLevel(cfg.logLevel))] else [])
    + (if |cfg.transfers| == 0 then [Top(NoTransfers)] else [])
  }

  /** The answers to the questions the validator asks about one entry, before it turns
      them into problems. A destination's usability is asked only for an archiving action
      with a non-blank destination; the probes are pure, so asking always changes
      nothing. */
  datatype EntryFacts = EntryFacts(
    nameBlank: bool, nameSeen: bool,
    dirBlank: bool, dirExists: bool,
    kind: TypeKeyword, typeBlank: bool,
    userBlank: bool, serverBlank: bool, portValid: bool,
    remotePathBlank: bool, keyBlank: bool, passwordBlank: bool, keyIsFile: bool,
    filterBlank: bool, filterError: Option<string>,
    successValid: bool, failValid: bool,
    successArchives: bool, failArchives: bool,
    archiveDestBlank: bool, archiveDestUsable: bool,
    failDestBlank: bool, failDestUsable: bool)

  function Facts(t: ConfigEntry, seen: set<string>, probes: Probes): EntryFacts {
    EntryFacts(
      IsBlank(t.name), t.name in seen,
      IsBlank(t.sourceDirectory), probes.isDir(t.sourceDirectory),
      ReadTransferType(t.transferType), IsBlank(t.transferType),
      IsBlank(t.username), IsBlank(t.server), IsValidPort(t.port),
      IsBlank(t.remotePath), IsBlank(t.privateKey), IsBlank(t.password), probes.isFile(t.privateKey),
      IsBlank(t.filter), probes.re.compileError(t.filter),
      IsValidAction(t.actionOnSuccess), IsValidAction(t.actionOnFail),
      IsArchive(t.actionOnSuccess), IsArchive(t.actionOnFail),
      IsBlank(t.archiveDest), IsDirOrCreatable(t.archiveDest, probes),
      IsBlank(t.failDest), IsDirOrCreatable(t.failDest, probes))
  }

  /** The problems the validator can report for an entry, in the order it checks them:
      identity (name, source directory), the type-dependent connection checks (SFTP,
      then SCP, then the unrecognised-type complaints), and file handling (filter,
      actions, destinations). A filter problem carries the compiler's message. */
  function Candidates(t: ConfigEntry, f: EntryFacts): seq<Problem> {
    [ NameRequired, DuplicateName(t.name), SourceDirRequired, SourceDirMissing(t.sourceDirectory),
      UsernameRequired(Sftp), ServerRequired(Sftp), BadPort(t.port, Sftp),
      RemotePathRequired, AuthRequired, KeyFileMissing(t.privateKey),
      UsernameRequired(Scp), ServerRequired(Scp), BadPort(t.port, Scp),
      TransferTypeRequired, UnsupportedTransferType(t.transferType),
      BadFilter(t.filter, if f.filterError.Some? then f.filterError.value else ""),
      BadActionOnSuccess(t.actionOnSuccess), BadActionOnFail(t.actionOnFail),
      ArchiveDestUnusable(t.archiveDest), FailDestUnusable(t.failDest) ]
  }

  /** The remote side a transfer type needs, if any. */
  function RemoteOf(k: TypeKeyword): Option<Remote> {
    match k
    case SftpType => Some(Sftp)
    case ScpType => Some(Scp)
    case _ => None
  }

  /** The condition under which the validator reports `p` for entry `t`: the guard of the
      `addf` that produces it, inside the `switch` arm of the type that reaches it. */
  predicate Applies(p: Problem, t: ConfigEntry, f: EntryFacts) {
    match p
    case NameRequired => f.nameBlank
    case DuplicateName(n) => n == t.name && !f.nameBlank && f.nameSeen
    case SourceDirRequired => f.dirBlank
    case SourceDirMissing(d) => d == t.sourceDirectory && !f.dirBlank && !f.dirExists
    case UsernameRequired(k) => RemoteOf(f.kind) == Some(k) && f.userBlank
    case ServerRequired(k) => RemoteOf(f.kind) == Some(k) && f.serverBlank
    case BadPort(port, k) => port == t.port && RemoteOf(f.kind) == Some(k) && !f.portValid
    case RemotePathRequired => f.kind == SftpType && f.remotePathBlank
    case AuthRequired => f.kind == SftpType && f.keyBlank && f.passwordBlank
    case KeyFileMissing(key) => key == t.privateKey && f.kind == SftpType && !f.keyBlank && !f.keyIsFile
    case TransferTypeRequired => f.kind == OtherType && f.typeBlank
    case UnsupportedTransferType(x) => x == t.transferType && f.kind == OtherType && !f.typeBlank
    case BadFilter(x, e) => x == t.filter && !f.filterBlank && f.filterError == Some(e)
    case BadActionOnSuccess(a) => a == t.actionOnSuccess && !f.successValid
    case BadActionOnFail(a) => a == t.actionOnFail && !f.failValid
    case ArchiveDestUnusable(d) =>
      d == t.archiveDest && f.successArchives && !f.archiveDestBlank && !f.archiveDestUsable
    case FailDestUnusable(d) => d == t.failDest && f.failArchives && !f.failDestBlank && !f.failDestUsable
  }

  /** The problems of `ps` whose conditions hold, in their order: the `addf` calls that
      fire. */
  function Kept(ps: seq<Problem>, t: ConfigEntry, f: EntryFacts): (r: seq<Problem>)
    ensures |r| <= |ps|
  {
    if ps == [] then []
    else (if Applies(ps[0], t, f) then [ps[0]] else []) + Kept(ps[1..], t, f)
  }

  /** A problem is kept exactly when it is a candidate and its condition holds. */
  lemma {:induction false} KeptIff(ps: seq<Problem>, t: ConfigEntry, f: EntryFacts)
    ensures forall p :: p in Kept(ps, t, f) <==> p in ps && Applies(p, t, f)
  {
    if ps != [] {
      KeptIff(ps[1..], t, f);
      assert forall p :: p in ps <==> p == ps[0] || p in ps[1..];
    }
  }

  /** The problems the answers add up to, in reporting order. */
  function Report(t: ConfigEntry, f: EntryFacts): seq<Problem> {
    Kept(Candidates(t, f), t, f)
  }

  /** Each problem is reported exactly when its condition holds. */
  lemma ReportIff(t: ConfigEntry, f: EntryFacts)
    ensures forall p :: p in Report(t, f) <==> Applies(p, t, f)
  {
    KeptIff(Candidates(t, f), t, f);
  }

  /** All problems of one entry, in the order the source reports them. `seen` holds the
      non-blank names of the earlier entries. */
  function EntryProblems(t: ConfigEntry, seen: set<string>, probes: Probes): seq<Problem> {
    Report(t, Facts(t, seen, probes))
  }

  /** A blank name, or else a name an earlier entry holds; a blank source directory, or
      else one that is not a directory: each is reported exactly when it holds. */
  lemma IdentityChecks(t: ConfigEntry, seen: set<string>, probes: Probes)
    ensures NameRequired in EntryProblems(t, seen, probes) <==> IsBlank(t.name)
    ensures DuplicateName(t.name) in EntryProblems(t, seen, probes) <==> !IsBlank(t.name) && t.name in seen
    ensures SourceDirRequired in EntryProblems(t, seen, probes) <==> IsBlank(t.sourceDirectory)
    ensures SourceDirMissing(t.sourceDirectory) in EntryProblems(t, seen, probes) <==>
      !IsBlank(t.sourceDirectory) && !probes.isDir(t.sourceDirectory)
  {
    ReportIff(t, Facts(t, seen, probes));
  }

  /** SFTP and SCP both need a user, a server and a valid port, and report a missing one
      under their own name; the other types never report these. */
  lemma RemoteChecks(t: ConfigEntry, seen: set<string>, probes: Probes)
    ensures forall k :: UsernameRequired(k) in EntryProblems(t, seen, probes) <==>
      IsBlank(t.username) && RemoteOf(ReadTransferType(t.transferType)) == Some(k)
    ensures forall k :: ServerRequired(k) in EntryProblems(t, seen, probes) <==>
      IsBlank(t.server) && RemoteOf(ReadTransferType(t.transferType)) == Some(k)
    ensures forall k :: BadPort(t.port, k) in EntryProblems(t, seen, probes) <==>
      !IsValidPort(t.port) && RemoteOf(ReadTransferType(t.transferType)) == Some(k)
  {
    ReportIff(t, Facts(t, seen, probes));
  }

  /** SFTP alone needs a remote path and a credential, and a named key file must exist. */
  lemma SftpChecks(t: ConfigEntry, seen: set<string>, probes: Probes)
    ensures RemotePathRequired in EntryProblems(t, seen, probes) <==>
      ReadTransferType(t.transferType) == SftpType && IsBlank(t.remotePath)
    ensures AuthRequired in EntryProblems(t, seen, probes) <==>
      ReadTransferType(t.transferType) == SftpType && IsBlank(t.privateKey) && IsBlank(t.password)
    ensures KeyFileMissing(t.privateKey) in EntryProblems(t, seen, probes) <==>
      ReadTransferType(t.transferType) == SftpType && !IsBlank(t.privateKey) && !probes.isFile(t.privateKey)
  {
    ReportIff(t, Facts(t, seen, probes));
  }

  /** The three stages of an entry's checks, in reporting order: its identity (name and
      source directory), its transfer type, and its file handling (filter, actions and
      destinations). */
  datatype Part = IdentityPart | TypePart | HandlingPart

  function PartOf(p: Problem): Part {
    match p
    case NameRequired => IdentityPart
    case DuplicateName(_) => IdentityPart
    case SourceDirRequired => IdentityPart
    case SourceDirMissing(_) => IdentityPart
    case BadFilter(_, _) => HandlingPart
    case BadActionOnSuccess(_) => HandlingPart
    case BadActionOnFail(_) => HandlingPart
    case ArchiveDestUnusable(_) => HandlingPart
    case FailDestUnusable(_) => HandlingPart
    case _ => TypePart
  }

  /** A local transfer has no type-dependent problem. */
  lemma LocalTypeChecks(t: ConfigEntry, seen: set<string>, probes: Probes)
    requires ReadTransferType(t.transferType) == LocalType
    ensures forall p :: p in EntryProblems(t, seen, probes) ==> PartOf(p) != TypePart
  {
    ReportIff(t, Facts(t, seen, probes));
  }

  /** A blank type is reported as missing and any other unrecognised type as
      unsupported. */
  lemma TypeNameChecks(t: ConfigEntry, seen: set<string>, probes: Probes)
    ensures TransferTypeRequired in EntryProblems(t, seen, probes) <==> IsBlank(t.transferType)
    ensures UnsupportedTransferType(t.transferType) in EntryProblems(t, seen, probes) <==>
      !IsBlank(t.transferType) && ReadTransferType(t.transferType) == OtherType
  {
    ReadTransferTypeSpec(t.transferType);
    ReportIff(t, Facts(t, seen, probes));
  }

  /** An action outside none/archive/delete is reported, for each of the two actions. */
  lemma ActionChecks(t: ConfigEntry, seen: set<string>, probes: Probes)
    ensures BadActionOnSuccess(t.actionOnSuccess) in EntryProblems(t, seen, probes) <==> !IsValidAction(t.actionOnSuccess)
    ensures BadActionOnFail(t.actionOnFail) in EntryProblems(t, seen, probes) <==> !IsValidAction(t.actionOnFail)
  {
    ReportIff(t, Facts(t, seen, probes));
  }

  /** For the archive action, a given destination that is neither a directory nor
      creatable is reported; a blank destination or another action is never checked. */
  lemma DestinationChecks(t: ConfigEntry, seen: set<string>, probes: Probes)
    ensures ArchiveDestUnusable(t.archiveDest) in EntryProblems(t, seen, probes) <==>
      IsArchive(t.actionOnSuccess) && !IsBlank(t.archiveDest) && !IsDirOrCreatable(t.archiveDest, probes)
    ensures FailDestUnusable(t.failDest) in EntryProblems(t, seen, probes) <==>
      IsArchive(t.actionOnFail) && !IsBlank(t.failDest) && !IsDirOrCreatable(t.failDest, probes)
  {
    ReportIff(t, Facts(t, seen, probes));
  }

  /** A non-blank filter that does not compile is reported with the compiler's error. */
  lemma FilterCheck(t: ConfigEntry, seen: set<string>, probes: Probes)
    ensures forall e :: BadFilter(t.filter, e) in EntryProblems(t, seen, probes) <==>
      !IsBlank(t.filter) && probes.re.compileError(t.filter) == Some(e)
  {
    ReportIff(t, Facts(t, seen, probes));
  }

  /** The check applied to each entry, given the names recorded before it. */
  type EntryCheck = (ConfigEntry, set<string>) -> seq<Problem>

  function CheckWith(probes: Probes): EntryCheck {
    (t: ConfigEntry, seen: set<string>) => EntryProblems(t, seen, probes)
  }

  /** The names the duplicate check has recorded after the given entries. */
  function SeenNames(ts: seq<ConfigEntry>): set<string> {
    set j | 0 <= j < |ts| && !IsBlank(ts[j].name) :: ts[j].name
  }

  /** Problems tagged with the index of their entry. */
  function Tag(i: nat, ps: seq<Problem>): (r: seq<Issue>)
    ensures |r| == |ps|
    ensures forall k :: 0 <= k < |ps| ==> r[k] == Entry(i, ps[k])
  {
    seq(|ps|, k requires 0 <= k < |ps| => Entry(i, ps[k]))
  }

  /** The per-entry issues of a transfer list, entry by entry: each entry's problems,
      given the names before it, tagged with its index. */
  function EntryIssues(ts: seq<ConfigEntry>, check: EntryCheck): seq<Issue>
    decreases |ts|
  {
    if ts == [] then []
    else EntryIssues(ts[..|ts| - 1], check) + Tag(|ts| - 1, check(ts[|ts| - 1], SeenNames(ts[..|ts| - 1])))
  }

  /** Entry issues listed by non-decreasing entry index. */
  predicate InEntryOrder(r: seq<Issue>) {
    forall a, b :: 0 <= a < b < |r| ==> r[a].Entry? && r[b].Entry? && r[a].index <= r[b].index
  }

  /** Appending the issues of a later entry keeps the entry order. */
  lemma AppendInEntryOrder(before: seq<Issue>, mine: seq<Issue>, last: nat)
    requires InEntryOrder(before)
    requires forall x :: x in before ==> x.Entry? && x.index < last
    requires forall x :: x in mine ==> x.Entry? && x.index == last
    ensures InEntryOrder(before + mine)
  {
    var r := before + mine;
    forall a, b | 0 <= a < b < |r| ensures r[a].Entry? && r[b].Entry? && r[a].index <= r[b].index {
      if b < |before| {
        assert r[a] == before[a] && r[b] == before[b];
      } else if a < |before| {
        assert r[a] == before[a] && r[a] in before;
        assert r[b] == mine[b - |before|] && r[b] in mine;
      } else {
        assert r[a] == mine[a - |before|] && r[b] == mine[b - |before|];
        assert r[a] in mine && r[b] in mine;
      }
    }
  }

  /** Every issue belongs to an entry of the list and is one of that entry's problems given
      the names before it, every such problem is reported, and the entries' issues come
      in entry order. */
  lemma {:induction false} EntryIssuesSpec(ts: seq<ConfigEntry>, check: EntryCheck)
    ensures forall x :: x in EntryIssues(ts, check) ==>
      x.Entry? && x.index < |ts| && x.problem in check(ts[x.index], SeenNames(ts[..x.index]))
    ensures forall i, p :: 0 <= i < |ts| && p in check(ts[i], SeenNames(ts[..i])) ==>
      Entry(i, p) in EntryIssues(ts, check)
    ensures InEntryOrder(EntryIssues(ts, check))
    decreases |ts|
  {
    if ts != [] {
      var init := ts[..|ts| - 1];
      var last := |ts| - 1;
      EntryIssuesSpec(init, check);
      var before := EntryIssues(init, check);
      var mine := Tag(last, check(ts[last], SeenNames(init)));
      assert EntryIssues(ts, check) == before + mine;
      assert forall i :: 0 <= i < |init| ==> ts[i] == init[i] && ts[..i] == init[..i];
      assert ts[..last] == init;
      forall i, p | 0 <= i < |ts| && p in check(ts[i], SeenNames(ts[..i]))
        ensures Entry(i, p) in before + mine
      {
        if i == last {
          var k :| 0 <= k < |check(ts[last], SeenNames(init))| && check(ts[last], SeenNames(init))[k] == p;
          assert mine[k] == Entry(i, p);
        }
      }
      var r := before + mine;
      forall x | x in r
        ensures x.Entry? && x.index < |ts| && x.problem in check(ts[x.index], SeenNames(ts[..x.index]))
      {
        if x !in before {
          var k :| 0 <= k < |mine| && mine[k] == x;
          assert x.index == last && x.problem == check(ts[last], SeenNames(init))[k];
        }
      }
      forall x | x in before ensures x.Entry? && x.index < last { }
      AppendInEntryOrder(before, mine, last);
      assert EntryIssues(ts, check) == r;
    }
  }

  /** Checking one more entry appends that entry's tagged problems. */
  lemma EntryIssuesStep(ts: seq<ConfigEntry>, i: nat, check: EntryCheck, prior: seq<Issue>, seen: set<string>)
    requires i < |ts|
    requires prior == EntryIssues(ts[..i], check) && seen == SeenNames(ts[..i])
    ensures EntryIssues(ts[..i + 1], check) == prior + Tag(i, check(ts[i], seen))
  {
    assert ts[..i + 1][..i] == ts[..i];
  }

  /** Checking one more entry records its name unless the name is blank. */
  lemma SeenNamesStep(ts: seq<ConfigEntry>, i: nat)
    requires i < |ts|
    ensures SeenNames(ts[..i + 1]) == SeenNames(ts[..i]) + (if IsBlank(ts[i].name) then {} else {ts[i].name})
  {
    var a := ts[..i + 1];
    forall n | n in SeenNames(a) ensures n in SeenNames(ts[..i]) + (if IsBlank(ts[i].name) then {} else {ts[i].name}) {
      var j :| 0 <= j < |a| && a[j].name == n;
      if j < i { assert ts[..i][j] == a[j]; }
    }
    forall n | n in SeenNames(ts[..i]) ensures n in SeenNames(a) {
      var j :| 0 <= j < i && ts[..i][j].name == n;
      assert a[j] == ts[..i][j];
    }
    if !IsBlank(ts[i].name) {
      assert a[i] == ts[i];
    }
  }

  /** Every issue `ValidateConfig` reports, in reporting order. */
  function Issues(cfg: ConfigData, probes: Probes): seq<Issue> {
    TopIssues(cfg) + EntryIssues(cfg.transfers, CheckWith(probes))
  }

  /** The `SourceDirectory` rewrite `ValidateConfig` performs on the configuration it was
      handed: a non-blank directory that `filepath.Abs` can resolve becomes absolute. */
  function NormalizeSourceDir(t: ConfigEntry, abs: string -> Option<string>): (r: ConfigEntry)
    ensures r == t.(sourceDirectory := r.sourceDirectory)
    ensures IsBlank(t.sourceDirectory) || abs(t.sourceDirectory).None? ==> r == t
    ensures !IsBlank(t.sourceDirectory) && abs(t.sourceDirectory).Some? ==>
      r.sourceDirectory == abs(t.sourceDirectory).value
  {
    if !IsBlank(t.sourceDirectory) && abs(t.sourceDirectory).Some? then
      t.(sourceDirectory := abs(t.sourceDirectory).value)
    else t
  }

  /** The checking half of `ValidateConfig`'s loop over the entries: it keeps the set of
      non-blank names seen so far and applies `check` to each entry in order. */
  method CheckEntries(ts: seq<ConfigEntry>, check: EntryCheck) returns (issues: seq<Issue>)
    ensures issues == EntryIssues(ts, check)
  {
    issues := [];
    var seen: set<string> := {};
    var i := 0;
    while i < |ts|
      invariant 0 <= i <= |ts|
      invariant seen == SeenNames(ts[..i])
      invariant issues == EntryIssues(ts[..i], check)
    {
      var t := ts[i];
      EntryIssuesStep(ts, i, check, issues, seen);
      SeenNamesStep(ts, i);
      issues := issues + Tag(i, check(t, seen));
      if !IsBlank(t.name) {
        seen := seen + {t.name};
      }
      i := i + 1;
    }
    assert ts[..|ts|] == ts;
  }

  /** The rewriting half of the same loop: each entry's source directory is normalised in
      place. No check reads the rewritten directory, so the two halves are independent. */
  method NormalizeEntries(ts: seq<ConfigEntry>, abs: string -> Option<string>) returns (out: seq<ConfigEntry>)
    ensures |out| == |ts|
    ensures forall i :: 0 <= i < |ts| ==> out[i] == NormalizeSourceDir(ts[i], abs)
  {
    out := ts;
    var i := 0;
    while i < |ts|
      invariant 0 <= i <= |ts|
      invariant |out| == |ts|
      invariant forall k :: 0 <= k < i ==> out[k] == NormalizeSourceDir(ts[k], abs)
      invariant forall k :: i <= k < |ts| ==> out[k] == ts[k]
    {
      out := out[i := NormalizeSourceDir(ts[i], abs)];
      i := i + 1;
    }
  }

  /** `ValidateConfig` as the source runs it: one pass over the entries keeping the set of
      names seen so far, appending each problem's message and rewriting source
      directories in place. A nil configuration is rejected outright; otherwise the result
      is no error exactly when no issue is found, and else all messages joined by "; ". */
  method ValidateConfig(cfg: Option<ConfigData>, probes: Probes) returns (err: Option<string>, updated: Option<ConfigData>)
    ensures cfg.None? ==> err == Some("config is nil") && updated.None?
    ensures cfg.Some? ==> (err.None? <==> Issues(cfg.value, probes) == [])
    ensures cfg.Some? && err.Some? ==> err.value == Join(RenderAll(Issues(cfg.value, probes)), "; ")
    ensures cfg.Some? ==>
      && updated.Some?
      && updated.value == cfg.value.(transfers := updated.value.transfers)
      && |updated.value.transfers| == |cfg.value.transfers|
      && forall i :: 0 <= i < |cfg.value.transfers| ==>
           updated.value.transfers[i] == NormalizeSourceDir(cfg.value.transfers[i], probes.abs)
  {
    if cfg.None? {
      return Some("config is nil"), None;
    }
    var c := cfg.value;
    var entryIssues := CheckEntries(c.transfers, CheckWith(probes));
    var out := NormalizeEntries(c.transfers, probes.abs);
    var issues := TopIssues(c) + entryIssues;
    updated := Some(c.(transfers := out));
    if issues == [] {
      err := None;
    } else {
      err := Some(Join(RenderAll(issues), "; "));
    }
  }

  /** An entry's issue is in a list's report exactly when it is one of that entry's
      problems given the names before it. */
  lemma EntryIssueIff(ts: seq<ConfigEntry>, check: EntryCheck, i: nat, p: Problem)
    requires i < |ts|
    ensures Entry(i, p) in EntryIssues(ts, check) <==> p in check(ts[i], SeenNames(ts[..i]))
  {
    EntryIssuesSpec(ts, check);
  }

  /** `ValidateConfig` reports a problem for entry `i` exactly when the entry checks find
      it, given the names of the entries before `i`. */
  lemma IssuesEntryIff(cfg: ConfigData, probes: Probes, i: nat, p: Problem)
    requires i < |cfg.transfers|
    ensures Entry(i, p) in Issues(cfg, probes) <==>
      p in EntryProblems(cfg.transfers[i], SeenNames(cfg.transfers[..i]), probes)
  {
    var check := CheckWith(probes);
    EntryIssueIff(cfg.transfers, check, i, p);
    assert check(cfg.transfers[i], SeenNames(cfg.transfers[..i]))
      == EntryProblems(cfg.transfers[i], SeenNames(cfg.transfers[..i]), probes);
    assert Entry(i, p) !in TopIssues(cfg);
  }

  /** The names seen before entry `i` are the non-blank names of the earlier entries. */
  lemma SeenBefore(ts: seq<ConfigEntry>, i: nat, n: string)
    requires i <= |ts|
    ensures n in SeenNames(ts[..i]) <==> !IsBlank(n) && exists j :: 0 <= j < i && ts[j].name == n
  {
    if n in SeenNames(ts[..i]) {
      var j :| 0 <= j < i && ts[..i][j].name == n;
      assert ts[j] == ts[..i][j];
    }
    if !IsBlank(n) && exists j :: 0 <= j < i && ts[j].name == n {
      var j :| 0 <= j < i && ts[j].name == n;
      assert ts[..i][j] == ts[j];
    }
  }

  /** A duplicate is reported for an entry exactly when its name is not blank and an earlier
      entry has the same name; the first holder of a name is never reported. */
  lemma DuplicateIff(cfg: ConfigData, probes: Probes, i: nat)
    requires i < |cfg.transfers|
    ensures Entry(i, DuplicateName(cfg.transfers[i].name)) in Issues(cfg, probes) <==>
      !IsBlank(cfg.transfers[i].name) && exists j :: 0 <= j < i && cfg.transfers[j].name == cfg.transfers[i].name
  {
    var ts := cfg.transfers;
    IssuesEntryIff(cfg, probes, i, DuplicateName(ts[i].name));
    IdentityChecks(ts[i], SeenNames(ts[..i]), probes);
    SeenBefore(ts, i, ts[i].name);
  }

  /** "no transfers defined" is reported exactly for an empty transfer list, and then it
      and the level complaint are the only issues. */
  lemma NoTransfersIff(cfg: ConfigData, probes: Probes)
    ensures Top(NoTransfers) in Issues(cfg, probes) <==> |cfg.transfers| == 0
    ensures |cfg.transfers| == 0 ==> forall x :: x in Issues(cfg, probes) ==> x.Top?
  {
    EntryIssuesSpec(cfg.transfers, CheckWith(probes));
    if Top(NoTransfers) in Issues(cfg, probes) {
      assert Top(NoTransfers) in TopIssues(cfg);
    }
  }

  /** The level and action checks ignore letter case and surrounding white space, and an
      all-blank value is accepted by both. */
  lemma LevelAndActionInsensitive(s: string)
    ensures IsValidLogLevel(ToLower(s)) == IsValidLogLevel(s) && IsValidLogLevel(TrimSpace(s)) == IsValidLogLevel(s)
    ensures IsValidAction(ToLower(s)) == IsValidAction(s) && IsValidAction(TrimSpace(s)) == IsValidAction(s)
    ensures IsBlank(s) ==> IsValidLogLevel(s) && IsValidAction(s)
  {
    KeywordIgnoresCaseAndPadding(s);
    KeywordEmptyIffBlank(s);
  }

  /** `isValidPort` on a decimal rendering accepts exactly the ports 1 to 65535. */
  lemma PortIff(n: nat)
    ensures IsValidPort(NatToString(n)) <==> 1 <= n <= 65535
  {
    var s := NatToString(n);
    DigitsValueOfNatToString(n);
    assert !IsBlank(s) by {
      assert !IsSpace(s[0]);
    }
    if n <= MaxInt64 {
      AtoiNatToString(n);
    } else {
      assert Atoi(s).None? by {
        assert s[0] != '-' && s[0] != '+';
      }
    }
  }

  /** The blank test trims but the number parse does not: a port written with surrounding
      spaces is rejected. */
  lemma PaddedPortRejected()
    ensures !IsValidPort(" 22")
  {
    assert Atoi(" 22").None? by { assert !IsDigit(" 22"[0]); }
  }

  /** The validator and the logger read level names differently. For a name without
      surrounding space both agree on the known names; a padded name such as " debug " is
      accepted by the validator and yet the logger falls back to Info. */
  lemma LevelReadings(s: string)
    ensures TrimSpace(s) == s && IsValidLogLevel(s) && Keyword(s) == "debug" ==> ParseLevel(s) == LevelDebug
    ensures TrimSpace(s) == s && IsValidLogLevel(s) && Keyword(s) == "error" ==> ParseLevel(s) == LevelError
    ensures TrimSpace(s) == s && !IsValidLogLevel(s) ==> ParseLevel(s) == LevelInfo
    ensures IsValidLogLevel(" debug ") && ParseLevel(" debug ") == LevelInfo
  {
    assert TrimSpace(" debug ") == "debug" by {
      assert TrimLeft(" debug ") == TrimLeft("debug ");
      assert TrimRight("debug ") == TrimRight("debug");
    }
    assert ToLower("debug") == "debug";
    assert ToLower(" debug ") != "debug" by { assert |ToLower(" debug ")| == 7; }
  }

  /** The validator compares the transfer type without case or surrounding space, the
      dispatchers compare it exactly: "SFTP" passes validation although the processor
      and `main` treat it as a type other than "sftp". */
  lemma ValidatedTypeNotDispatchedAsSftp(t: ConfigEntry, seen: set<string>, probes: Probes)
    requires t.transferType == "SFTP"
    ensures UnsupportedTransferType(t.transferType) !in EntryProblems(t, seen, probes)
    ensures TransferTypeRequired !in EntryProblems(t, seen, probes)
    ensures t.transferType != "sftp"
  {
    TypeNameChecks(t, seen, probes);
    assert TrimSpace("SFTP") == "SFTP" by {
      assert TrimLeft("SFTP") == "SFTP";
      assert TrimRight("SFTP") == "SFTP";
    }
    assert ToLower("SFTP") == "sftp";
  }
}
