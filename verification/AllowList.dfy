/**
  The provisioner daemon's command allow-list (ops/mc-provisioner-daemon.js) and the
  planner that writes the commands (src/lib/super-admin.ts). The two describe the same
  command language independently: the planner builds strings, the daemon matches them
  with anchored regular expressions and path equality.
 */
module AllowList {
  import opened Options
  import opened Paths

  // ---- Character classes and anchored patterns --------------------------------

  predicate LowerAlpha(c: char) { 'a' <= c <= 'z' }
  predicate Digit(c: char) { '0' <= c <= '9' }
  predicate UserHead(c: char) { LowerAlpha(c) || c == '_' }
  predicate UserTail(c: char) { LowerAlpha(c) || Digit(c) || c == '_' || c == '-' }
  predicate SlugEnd(c: char) { LowerAlpha(c) || Digit(c) }
  predicate SlugChar(c: char) { SlugEnd(c) || c == '-' }

  /** ^[a-z_][a-z0-9_-]{1,30}$ */
  predicate SafeUser(u: string) {
    2 <= |u| <= 31 && UserHead(u[0]) && forall i | 1 <= i < |u| :: UserTail(u[i])
  }

  /** ^[a-z0-9][a-z0-9-]{1,30}[a-z0-9]$ */
  predicate ValidSlug(s: string) {
    3 <= |s| <= 32 && SlugEnd(s[0]) && SlugEnd(s[|s| - 1]) && forall i | 0 <= i < |s| :: SlugChar(s[i])
  }

  /** ^[a-z0-9-]{3,32}$ */
  predicate SlugDir(s: string) {
    3 <= |s| <= 32 && forall i | 0 <= i < |s| :: SlugChar(s[i])
  }

  predicate Affixed(t: string, pre: string, post: string) {
    |pre| + |post| <= |t| && pre <= t && t[|t| - |post|..] == post
  }

  /** What an anchored pattern captures between two literal strings. */
  function Middle(t: string, pre: string, post: string): string
    requires Affixed(t, pre, post)
  {
    t[|pre|..|t| - |post|]
  }

  /** ^pre([a-z_][a-z0-9_-]{1,30})post$ with pre and post taken literally. */
  predicate UserBetween(t: string, pre: string, post: string) {
    Affixed(t, pre, post) && SafeUser(Middle(t, pre, post))
  }

  lemma AffixedBuild(pre: string, mid: string, post: string)
    ensures Affixed(pre + mid + post, pre, post)
    ensures Middle(pre + mid + post, pre, post) == mid
  {
  }

  lemma AffixedLast(t: string, pre: string, post: string)
    requires post != "" && Affixed(t, pre, post)
    ensures t[|t| - 1] == post[|post| - 1]
  {
    assert t[|t| - |post|..][|post| - 1] == t[|t| - 1];
  }

  // ---- The daemon -------------------------------------------------------------

  /**
    What the daemon and the application read from their environments. The first two settings are
    read alike by both. The others need not come out equal: the application trims two of them,
    and each side falls back to directories of its own.
   */
  datatype Env = Env(
    homeRoot: string,        // MC_TENANT_HOME_ROOT, trimmed on both sides
    workspaceDir: string,    // MC_TENANT_WORKSPACE_DIRNAME, trimmed on both sides
    dataDir: string,         // MISSION_CONTROL_DATA_DIR or <daemon's repository>/.data
    appDataDir: string,      // MISSION_CONTROL_DATA_DIR or <working directory>/.data
    repoRoot: string,        // MISSION_CONTROL_REPO_ROOT or the daemon's own repository
    appRepoRoot: string,     // MISSION_CONTROL_REPO_ROOT, trimmed, or the working directory
    template: string,        // the openclaw.json template, as the daemon reads it
    appTemplate: string      // the same setting after the application's trim
  )

  function UnitTemplate(repoRoot: string): string {
    PathJoin([repoRoot, "ops", "templates", "openclaw-gateway@.service"])
  }

  function ProvisionerDir(dataDir: string): string {
    PathJoin([dataDir, "provisioner"])
  }

  const ENV_FILE := "/openclaw-gateway.env"
  const TENANTS_DIR := "/etc/openclaw-tenants"
  const UNIT_TARGET := "/etc/systemd/system/openclaw-gateway@.service"

  datatype Verdict =
    | Accepted
    | InvalidPayload
    | ArgumentMismatch
    | ArgsNotAllowed
    | UserNotAllowed
    | SourceNotAllowed
    | PathNotAllowed
    | NotAllowlisted

  function Check(ok: bool, failure: Verdict): Verdict {
    if ok then Accepted else failure
  }

  predicate HomeFile(env: Env, target: string, suffix: string) {
    UserBetween(target, JoinPosix([env.homeRoot]) + "/", "/" + suffix)
  }

  predicate TenantEnvFile(target: string) {
    UserBetween(target, TENANTS_DIR + "/", ".env")
  }

  predicate GatewayUnit(name: string) {
    UserBetween(name, "openclaw-gateway@", ".service")
  }

  /** The regular-expression form of the tenant directories, used by `rm -rf`. */
  predicate RemovableDir(env: Env, target: string) {
    HomeFile(env, target, ".openclaw") || HomeFile(env, target, env.workspaceDir)
  }

  /** The join-equality form of the tenant directories, used by `install`. */
  predicate InstallDir(env: Env, user: string, target: string) {
    || target == JoinPosix([env.homeRoot, user, ".openclaw"])
    || target == JoinPosix([env.homeRoot, user, env.workspaceDir])
  }

  predicate TenantEnvSource(env: Env, source: string) {
    var pre := ProvisionerDir(env.dataDir) + "/";
    Affixed(source, pre, ENV_FILE) && SlugDir(Middle(source, pre, ENV_FILE))
  }

  function CommandName(command: string): string {
    var segs := Split(command, '/');
    segs[|segs| - 1]
  }

  function ValidateInstall(env: Env, args: seq<string>): Verdict {
    if |args| != 8 then ArgumentMismatch
    else if args[0] != "-d" || args[1] != "-m" || args[3] != "-o" || args[5] != "-g" then ArgsNotAllowed
    else if args[2] != "0750" && args[2] != "0700" then ArgsNotAllowed
    else
      var rootOwned := args[4] == "root" && args[6] == "root";
      var tenantOwned := SafeUser(args[4]) && SafeUser(args[6]) && args[4] == args[6];
      if !rootOwned && !tenantOwned then UserNotAllowed
      else if rootOwned && args[7] == TENANTS_DIR then Accepted
      else Check(InstallDir(env, args[4], args[7]), PathNotAllowed)
  }

  function ValidateCp(env: Env, args: seq<string>): Verdict {
    if |args| != 3 then ArgumentMismatch
    else if args[0] != "-n" && args[0] != "-f" then ArgsNotAllowed
    else if env.template != "" && args[1] == env.template then
      if args[0] != "-n" then ArgsNotAllowed
      else Check(HomeFile(env, args[2], ".openclaw/openclaw.json"), PathNotAllowed)
    else if args[1] == UnitTemplate(env.repoRoot) then
      if args[0] != "-n" then ArgsNotAllowed else Check(args[2] == UNIT_TARGET, PathNotAllowed)
    else if TenantEnvSource(env, args[1]) then
      if args[0] != "-f" then ArgsNotAllowed else Check(TenantEnvFile(args[2]), PathNotAllowed)
    else SourceNotAllowed
  }

  function ValidateChown(env: Env, args: seq<string>): Verdict {
    if |args| != 3 then ArgumentMismatch
    else if args[0] != "-R" then ArgsNotAllowed
    else
      var owners := Split(args[1], ':');
      if !SafeUser(owners[0]) || |owners| < 2 || owners[0] != owners[1] then UserNotAllowed
      else Check(args[2] == JoinPosix([env.homeRoot, owners[0]]), PathNotAllowed)
  }

  function ValidateRm(env: Env, args: seq<string>): Verdict {
    if |args| != 2 then ArgumentMismatch
    else if args[0] == "-f" then Check(TenantEnvFile(args[1]), PathNotAllowed)
    else if args[0] == "-rf" then Check(RemovableDir(env, args[1]), PathNotAllowed)
    else ArgsNotAllowed
  }

  function ValidateSystemctl(args: seq<string>): Verdict {
    if |args| == 1 && args[0] == "daemon-reload" then Accepted
    else if |args| == 3 && (args[0] == "enable" || args[0] == "disable") && args[1] == "--now" then
      Check(GatewayUnit(args[2]), PathNotAllowed)
    else ArgsNotAllowed
  }

  function ValidateCommand(env: Env, command: string, args: seq<string>): Verdict {
    var cmd := CommandName(command);
    if command == "" then InvalidPayload
    else if cmd == "useradd" then
      if |args| != 4 then ArgumentMismatch
      else if args[0] != "-m" || args[1] != "-s" || args[2] != "/bin/bash" then ArgsNotAllowed
      else Check(SafeUser(args[3]), UserNotAllowed)
    else if cmd == "install" then ValidateInstall(env, args)
    else if cmd == "cp" then ValidateCp(env, args)
    else if cmd == "chown" then ValidateChown(env, args)
    else if cmd == "rm" then ValidateRm(env, args)
    else if cmd == "userdel" then
      if |args| != 2 then ArgumentMismatch
      else if args[0] != "-r" then ArgsNotAllowed
      else Check(SafeUser(args[1]), UserNotAllowed)
    else if cmd == "true" then Check(|args| == 0, ArgumentMismatch)
    else if cmd == "systemctl" then ValidateSystemctl(args)
    else NotAllowlisted
  }

  // ---- The planner ------------------------------------------------------------

  datatype Tenant = Tenant(slug: string, user: string, openclawHome: string, workspaceRoot: string)

  datatype PlanStep = PlanStep(key: string, command: string, args: seq<string>)

  datatype BootstrapRequest = BootstrapRequest(
    slug: string, displayName: string, linuxUser: string, gatewayPort: Option<int>, dashboardPort: Option<int>)

  predicate PortOk(p: Option<int>) {
    p.Some? ==> 1024 <= p.value <= 65535
  }

  /**
    The checks of createTenantAndBootstrapJob. `lower` stands for trimming and lower-casing,
    `trim` for trimming; whatever they do, only their results are tested and used.
   */
  function AcceptRequest(env: Env, r: BootstrapRequest, trim: string -> string, lower: string -> string)
    : Option<Tenant>
  {
    var slug := lower(r.slug);
    var user := lower(if r.linuxUser == "" then "oc-" + slug else r.linuxUser);
    if env.appTemplate == "" || !ValidSlug(slug) || trim(r.displayName) == "" || !SafeUser(user)
       || !PortOk(r.gatewayPort) || !PortOk(r.dashboardPort) || r.gatewayPort.None? then None
    else Some(Tenant(slug, user,
                     JoinPosix([env.homeRoot, user, ".openclaw"]),
                     JoinPosix([env.homeRoot, user, env.workspaceDir])))
  }

  function ArtifactDir(env: Env, slug: string): string {
    PathJoin([env.appDataDir, "provisioner", slug])
  }

  function InstallArgs(owner: string, target: string): seq<string> {
    ["-d", "-m", "0750", "-o", owner, "-g", owner, target]
  }

  function BootstrapPlan(env: Env, t: Tenant): seq<PlanStep> {
    [ PlanStep("create-linux-user", "/usr/sbin/useradd", ["-m", "-s", "/bin/bash", t.user]),
      PlanStep("create-openclaw-state", "/usr/bin/install", InstallArgs(t.user, t.openclawHome)),
      PlanStep("create-workspace-root", "/usr/bin/install", InstallArgs(t.user, t.workspaceRoot)),
      PlanStep("seed-openclaw-template", "/usr/bin/cp",
               ["-n", env.appTemplate, t.openclawHome + "/openclaw.json"]),
      PlanStep("set-owner-home", "/usr/bin/chown",
               ["-R", t.user + ":" + t.user, JoinPosix([env.homeRoot, t.user])]),
      PlanStep("ensure-openclaw-tenants-dir", "/usr/bin/install", InstallArgs("root", TENANTS_DIR)),
      PlanStep("install-gateway-systemd-template", "/usr/bin/cp", ["-n", UnitTemplate(env.appRepoRoot), UNIT_TARGET]),
      PlanStep("install-tenant-gateway-env", "/usr/bin/cp",
               ["-f", ArtifactDir(env, t.slug) + ENV_FILE, TENANTS_DIR + "/" + t.user + ".env"]),
      PlanStep("systemd-daemon-reload", "/usr/bin/systemctl", ["daemon-reload"]),
      PlanStep("enable-start-gateway", "/usr/bin/systemctl",
               ["enable", "--now", "openclaw-gateway@" + t.user + ".service"]) ]
  }

  function DecommissionPlan(t: Tenant, removeUser: bool, removeDirs: bool): seq<PlanStep> {
    [ PlanStep("disable-stop-gateway", "/usr/bin/systemctl",
               ["disable", "--now", "openclaw-gateway@" + t.user + ".service"]),
      PlanStep("remove-tenant-gateway-env", "/usr/bin/rm", ["-f", TENANTS_DIR + "/" + t.user + ".env"]) ]
    + (if removeDirs && !removeUser then
         [ PlanStep("remove-openclaw-state-dir", "/usr/bin/rm", ["-rf", t.openclawHome]),
           PlanStep("remove-workspace-dir", "/usr/bin/rm", ["-rf", t.workspaceRoot]) ]
       else [])
    + (if removeUser then [ PlanStep("remove-linux-user", "/usr/sbin/userdel", ["-r", t.user]) ] else [])
  }

  predicate StepAccepted(env: Env, step: PlanStep) {
    ValidateCommand(env, step.command, step.args) == Accepted
  }

  predicate PlanAccepted(env: Env, plan: seq<PlanStep>) {
    forall i | 0 <= i < |plan| :: StepAccepted(env, plan[i])
  }

  // ---- Facts about users, slugs and file names --------------------------------

  lemma {:induction false} CommandNameOf(dir: string, name: string)
    requires '/' !in name
    ensures CommandName(dir + "/" + name) == name
  {
    SplitConcat(dir, name, '/');
    SplitWhole(name, '/');
  }

  lemma SafeUserPlain(u: string)
    requires SafeUser(u)
    ensures PlainPath(u) && ':' !in u && '/' !in u && u != ".."
  {
    forall c | c in u ensures c != '/' && c != ':' && c != '.' {
      var i :| 0 <= i < |u| && u[i] == c;
      assert i == 0 || UserTail(u[i]);
    }
    assert u[0] in u;
    SplitWhole(u, '/');
  }

  lemma SlugPlain(s: string)
    requires ValidSlug(s) || SlugDir(s)
    ensures PlainPath(s) && SlugDir(s)
  {
    forall c | c in s ensures c != '/' && c != '.' {
      var i :| 0 <= i < |s| && s[i] == c;
      assert SlugChar(s[i]);
    }
    assert s[0] in s;
    SplitWhole(s, '/');
  }

  lemma NamePlain(name: string)
    requires '/' !in name && Plain(name)
    ensures PlainPath(name)
  {
    SplitWhole(name, '/');
  }

  // ---- Home directories: regular expression against path equality -------------

  /** The configured root names a directory other than the working directory and "/". */
  predicate HomeRootOk(env: Env) {
    JoinPosix([env.homeRoot]) != "." && JoinPosix([env.homeRoot]) != "/"
  }

  lemma RootStackResolved(root: string)
    ensures Resolved(RootStack(root))
  {
    SplitFree(Clean(root), '/');
    ResolveResolved([], Split(Clean(root), '/'), IsAbsolute(Clean(root)));
  }

  lemma HomeRootOkStack(env: Env)
    ensures HomeRootOk(env) <==> RootStack(env.homeRoot) != []
  {
    JoinPosixRoot(env.homeRoot);
    RootStackResolved(env.homeRoot);
    var stack := RootStack(env.homeRoot);
    if stack != [] {
      assert stack[0] in stack;
      var body := Join(stack, '/');
      SplitJoin(stack, '/');
      SplitWhole(".", '/');
      assert body != "." && body != "" && body[0] != '/' by {
        assert body != "" ==> Split(body, '/') == Prepend(body[0], '/', Split(body[1..], '/'));
      }
      var base := JoinPosix([env.homeRoot]);
      assert base == body || base == "/" + body;
      assert base[0] != '/' || |base| >= 2;
      assert base != ".";
    }
  }

  /** Where the planner and the daemon's equality test put a tenant directory. */
  lemma TenantDir(env: Env, user: string, suffix: string)
    requires SafeUser(user) && PlainPath(suffix)
    ensures HomeRootOk(env) ==>
              JoinPosix([env.homeRoot, user, suffix]) == JoinPosix([env.homeRoot]) + "/" + user + "/" + suffix
    ensures !HomeRootOk(env) ==>
              JoinPosix([env.homeRoot, user, suffix]) ==
              (if IsAbsolute(Clean(env.homeRoot)) then "/" else "") + user + "/" + suffix
  {
    hide HomeRootOk, RootStack, JoinPosix, PlainPath, SafeUser, Clean, Split;
    SafeUserPlain(user);
    HomeRootOkStack(env);
    JoinPosixUnder(env.homeRoot, [user, suffix]);
    assert [env.homeRoot] + [user, suffix] == [env.homeRoot, user, suffix];
    assert Join([user, suffix], '/') == user + "/" + suffix;
  }

  lemma HomeFileBuild(env: Env, user: string, suffix: string)
    requires SafeUser(user)
    ensures HomeFile(env, JoinPosix([env.homeRoot]) + "/" + user + "/" + suffix, suffix)
  {
    var pre, post := JoinPosix([env.homeRoot]) + "/", "/" + suffix;
    AffixedBuild(pre, user, post);
    assert pre + user + post == JoinPosix([env.homeRoot]) + "/" + user + "/" + suffix;
  }

  /** With a root that resolves to nothing, the equality form is outside the regular expression. */
  lemma HomeFileNeedsRoot(env: Env, user: string, suffix: string, pattern: string)
    requires !HomeRootOk(env) && SafeUser(user)
    ensures !HomeFile(env, (if IsAbsolute(Clean(env.homeRoot)) then "/" else "") + user + "/" + suffix, pattern)
  {
    var base := JoinPosix([env.homeRoot]);
    var target := (if IsAbsolute(Clean(env.homeRoot)) then "/" else "") + user + "/" + suffix;
    SafeUserPlain(user);
    assert user[0] in user && user[1] in user;
    assert target[1] != '/';
    assert (base + "/")[1] == '/';
  }

  ghost predicate TenantInstallable(env: Env, target: string) {
    exists user :: SafeUser(user) && InstallDir(env, user, target)
  }

  lemma RemovableIsInstallable(env: Env, target: string, suffix: string)
    requires HomeRootOk(env) && PlainPath(suffix) && HomeFile(env, target, suffix)
    requires suffix == ".openclaw" || suffix == env.workspaceDir
    ensures TenantInstallable(env, target)
  {
    hide PathJoin, CleanAll, Clean, Split, SafeUser;
    var base := JoinPosix([env.homeRoot]);
    var user := Middle(target, base + "/", "/" + suffix);
    assert target == base + "/" + user + "/" + suffix;
    TenantDir(env, user, suffix);
    assert InstallDir(env, user, target);
  }

  lemma InstallableIsRemovable(env: Env, user: string, suffix: string)
    requires HomeRootOk(env) && PlainPath(suffix) && SafeUser(user)
    ensures HomeFile(env, JoinPosix([env.homeRoot, user, suffix]), suffix)
  {
    hide PathJoin, CleanAll, Clean, Split, SafeUser;
    TenantDir(env, user, suffix);
    HomeFileBuild(env, user, suffix);
  }

  /** Under both assumptions the two forms of the allow-list accept the same directories. */
  lemma FormsAgree(env: Env, target: string)
    requires HomeRootOk(env) && PlainPath(env.workspaceDir)
    ensures RemovableDir(env, target) <==> TenantInstallable(env, target)
  {
    hide PathJoin, CleanAll, Clean, Split, HomeFile;
    NamePlain(".openclaw");
    if HomeFile(env, target, ".openclaw") {
      RemovableIsInstallable(env, target, ".openclaw");
    } else if HomeFile(env, target, env.workspaceDir) {
      RemovableIsInstallable(env, target, env.workspaceDir);
    }
    if user :| SafeUser(user) && InstallDir(env, user, target) {
      InstallableIsRemovable(env, user, ".openclaw");
      InstallableIsRemovable(env, user, env.workspaceDir);
    }
  }

  ghost predicate RmOfTenant(env: Env, args: seq<string>, user: string) {
    && SafeUser(user)
    && (args == ["-f", TENANTS_DIR + "/" + user + ".env"]
        || (|args| == 2 && args[0] == "-rf" && InstallDir(env, user, args[1])))
  }

  /** Under both assumptions `rm` is allowed for exactly the files and directories of some tenant. */
  lemma RmExactly(env: Env, args: seq<string>)
    requires HomeRootOk(env) && PlainPath(env.workspaceDir)
    ensures ValidateRm(env, args) == Accepted <==> exists user :: RmOfTenant(env, args, user)
  {
    hide InstallDir, RemovableDir, PathJoin, Split;
    if ValidateRm(env, args) == Accepted {
      if args[0] == "-f" {
        var user := Middle(args[1], TENANTS_DIR + "/", ".env");
        assert args[1] == TENANTS_DIR + "/" + user + ".env";
        assert RmOfTenant(env, args, user);
      } else {
        FormsAgree(env, args[1]);
        var user :| SafeUser(user) && InstallDir(env, user, args[1]);
        assert RmOfTenant(env, args, user);
      }
    }
    if user :| RmOfTenant(env, args, user) {
      TenantEnvFileOf(user);
      if args[0] == "-rf" {
        FormsAgree(env, args[1]);
      }
    }
  }

  // ---- The agreement needs both assumptions -----------------------------------

  predicate NormalSegs(segs: seq<string>) {
    Resolved(segs) || (|segs| > 1 && segs[0] == "" && Resolved(segs[1..]))
  }

  lemma RenderSegs(absolute: bool, stack: seq<string>)
    requires stack != [] && Resolved(stack)
    ensures NormalSegs(Split(Render(absolute, stack), '/'))
  {
    var body := Join(stack, '/');
    SplitJoin(stack, '/');
    SplitConcat("", body, '/');
    assert "" + ['/'] + body == "/" + body;
    assert "" + body == body;
    assert ([""] + stack)[1..] == stack;
  }

  /** Everything the equality form accepts is in normal form. */
  lemma JoinedIsNormal(parts: seq<string>)
    requires JoinPosix(parts) != "." && JoinPosix(parts) != "/"
    ensures NormalSegs(Split(JoinPosix(parts), '/'))
  {
    hide Split, Join, Resolve;
    var kept := NonEmpty(CleanAll(parts));
    CleanAllClean(parts);
    JoinTail(kept);
    var p := Join(kept, '/');
    SplitFree(p, '/');
    ResolveResolved([], Split(p, '/'), IsAbsolute(p));
    NormalizeStack(p);
    RenderSegs(IsAbsolute(p), Stack(p));
  }

  lemma {:induction false} CleanAllClean(parts: seq<string>)
    ensures forall p | p in NonEmpty(CleanAll(parts)) :: p != "" && p[|p| - 1] != '/'
  {
    hide Split;
    if parts != [] {
      CleanAllClean(parts[1..]);
    }
  }

  lemma {:induction false} JoinTail(parts: seq<string>)
    requires |parts| >= 1
    requires forall p | p in parts :: p != "" && p[|p| - 1] != '/'
    ensures var j := Join(parts, '/'); j != "" && j[|j| - 1] != '/'
  {
    if |parts| > 1 {
      JoinTail(parts[1..]);
    }
  }

  lemma AgreementNeedsRoot(env: Env)
    requires !HomeRootOk(env)
    ensures exists target :: TenantInstallable(env, target) && !RemovableDir(env, target)
  {
    hide PathJoin, CleanAll, Clean, Split;
    var target := JoinPosix([env.homeRoot, "oc", ".openclaw"]);
    NamePlain(".openclaw");
    assert SafeUser("oc") && InstallDir(env, "oc", target);
    TenantDir(env, "oc", ".openclaw");
    HomeFileNeedsRoot(env, "oc", ".openclaw", ".openclaw");
    HomeFileNeedsRoot(env, "oc", ".openclaw", env.workspaceDir);
    assert TenantInstallable(env, target) && !RemovableDir(env, target);
  }

  /** A directory below a tenant's that is not plain itself is not in normal form. */
  lemma NotNormal(base: string, user: string, ws: string)
    requires SafeUser(user) && !PlainPath(ws)
    ensures !NormalSegs(Split(base + "/" + user + "/" + ws, '/'))
  {
    hide Resolved, SafeUser;
    SafeUserPlain(user);
    var target := base + "/" + user + "/" + ws;
    var segs, b, w := Split(target, '/'), Split(base, '/'), Split(ws, '/');
    assert segs == b + [user] + w by {
      SplitConcat(base + "/" + user, ws, '/');
      SplitConcat(base, user, '/');
      SplitWhole(user, '/');
    }
    var bad :| bad in w && !Plain(bad);
    var k :| 0 <= k < |w| && w[k] == bad;
    assert segs[|b|] == user && segs[1..][|b| - 1] == user;
    NotResolved(segs, |b|, |b| + 1 + k);
    NotResolved(segs[1..], |b| - 1, |b| + k);
  }

  lemma NotResolved(segs: seq<string>, i: nat, j: nat)
    requires i < j < |segs| && segs[i] != ".." && !Plain(segs[j])
    ensures !Resolved(segs)
  {
    assert segs[j] in segs;
  }

  lemma AgreementNeedsPlain(env: Env)
    requires HomeRootOk(env) && !PlainPath(env.workspaceDir)
    ensures exists target :: RemovableDir(env, target) && !TenantInstallable(env, target)
  {
    hide PathJoin, CleanAll, Split, Clean;
    var base, ws := JoinPosix([env.homeRoot]), env.workspaceDir;
    var target := base + "/" + "oc" + "/" + ws;
    assert SafeUser("oc");
    HomeFileBuild(env, "oc", ws);
    NotNormal(base, "oc", ws);
    assert |target| >= 4;
    forall user | SafeUser(user) ensures !InstallDir(env, user, target) {
      assert target != JoinPosix([env.homeRoot, user, ".openclaw"]) by {
        if |JoinPosix([env.homeRoot, user, ".openclaw"])| >= 4 {
          JoinedIsNormal([env.homeRoot, user, ".openclaw"]);
        }
      }
      assert target != JoinPosix([env.homeRoot, user, ws]) by {
        if |JoinPosix([env.homeRoot, user, ws])| >= 4 {
          JoinedIsNormal([env.homeRoot, user, ws]);
        }
      }
    }
    assert RemovableDir(env, target) && !TenantInstallable(env, target);
  }

  /**
    The regular-expression form and the equality form accept the same directories for every
    target exactly when the home root resolves to a real directory and the workspace name is a
    plain relative path.
   */
  lemma FormsAgreeExactly(env: Env)
    ensures (forall target :: RemovableDir(env, target) <==> TenantInstallable(env, target))
       <==> (HomeRootOk(env) && PlainPath(env.workspaceDir))
  {
    if HomeRootOk(env) && PlainPath(env.workspaceDir) {
      forall target ensures RemovableDir(env, target) <==> TenantInstallable(env, target) {
        FormsAgree(env, target);
      }
    } else if !HomeRootOk(env) {
      AgreementNeedsRoot(env);
    } else {
      AgreementNeedsPlain(env);
    }
  }

  // ---- The daemon's language ---------------------------------------------------

  /** What a command line asks for. */
  datatype Order =
    | AddUser(user: string)
    | MakeDir(mode: string, owner: string, path: string)
    | Copy(flag: string, source: string, target: string)
    | Own(owners: string, path: string)
    | RemoveFile(path: string)
    | RemoveTree(path: string)
    | RemoveUser(user: string)
    | Nothing
    | Reload
    | Switch(verb: string, user: string)

  function ProgramOf(o: Order): string {
    match o
    case AddUser(_) => "useradd"
    case MakeDir(_, _, _) => "install"
    case Copy(_, _, _) => "cp"
    case Own(_, _) => "chown"
    case RemoveFile(_) => "rm"
    case RemoveTree(_) => "rm"
    case RemoveUser(_) => "userdel"
    case Nothing => "true"
    case Reload => "systemctl"
    case Switch(_, _) => "systemctl"
  }

  function ArgsOf(o: Order): seq<string> {
    match o
    case AddUser(user) => ["-m", "-s", "/bin/bash", user]
    case MakeDir(mode, owner, path) => ["-d", "-m", mode, "-o", owner, "-g", owner, path]
    case Copy(flag, source, target) => [flag, source, target]
    case Own(owners, path) => ["-R", owners, path]
    case RemoveFile(path) => ["-f", path]
    case RemoveTree(path) => ["-rf", path]
    case RemoveUser(user) => ["-r", user]
    case Nothing => []
    case Reload => ["daemon-reload"]
    case Switch(verb, user) => [verb, "--now", "openclaw-gateway@" + user + ".service"]
  }

  /** The command is the program itself or the program in some directory. */
  ghost predicate Names(command: string, program: string) {
    command == program || exists dir :: command == dir + "/" + program
  }

  ghost predicate Says(command: string, args: seq<string>, o: Order) {
    Names(command, ProgramOf(o)) && args == ArgsOf(o)
  }

  ghost predicate UserFile(path: string, pre: string, post: string) {
    exists user :: SafeUser(user) && path == pre + user + post
  }

  ghost predicate TenantTree(env: Env, path: string) {
    var pre := JoinPosix([env.homeRoot]) + "/";
    UserFile(path, pre, "/" + ".openclaw") || UserFile(path, pre, "/" + env.workspaceDir)
  }

  ghost predicate OwnedBy(owners: string, user: string) {
    owners == user + ":" + user || exists rest :: owners == user + ":" + user + ":" + rest
  }

  ghost predicate ArtifactOf(env: Env, path: string, slug: string) {
    SlugDir(slug) && path == ProvisionerDir(env.dataDir) + "/" + slug + "/openclaw-gateway.env"
  }

  /** A source that is two things at once is read as the first of them. */
  ghost predicate CopyAllowed(env: Env, flag: string, source: string, target: string) {
    if env.template != "" && source == env.template then
      flag == "-n" && UserFile(target, JoinPosix([env.homeRoot]) + "/", "/" + ".openclaw/openclaw.json")
    else if source == UnitTemplate(env.repoRoot) then
      flag == "-n" && target == "/etc/systemd/system/openclaw-gateway@.service"
    else
      flag == "-f" && (exists slug :: ArtifactOf(env, source, slug))
      && UserFile(target, "/etc/openclaw-tenants" + "/", ".env")
  }

  ghost predicate OwnAllowed(env: Env, owners: string, path: string) {
    exists user :: SafeUser(user) && OwnedBy(owners, user) && path == JoinPosix([env.homeRoot, user])
  }

  predicate MakeDirAllowed(env: Env, mode: string, owner: string, path: string) {
    && (mode == "0750" || mode == "0700")
    && ((owner == "root" && path == "/etc/openclaw-tenants")
        || (SafeUser(owner)
            && (path == JoinPosix([env.homeRoot, owner, ".openclaw"])
                || path == JoinPosix([env.homeRoot, owner, env.workspaceDir]))))
  }

  ghost predicate Allowed(env: Env, o: Order) {
    match o
    case AddUser(user) => SafeUser(user)
    case MakeDir(mode, owner, path) => MakeDirAllowed(env, mode, owner, path)
    case Copy(flag, source, target) => CopyAllowed(env, flag, source, target)
    case Own(owners, path) => OwnAllowed(env, owners, path)
    case RemoveFile(path) => UserFile(path, "/etc/openclaw-tenants" + "/", ".env")
    case RemoveTree(path) => TenantTree(env, path)
    case RemoveUser(user) => SafeUser(user)
    case Nothing => true
    case Reload => true
    case Switch(verb, user) => (verb == "enable" || verb == "disable") && SafeUser(user)
  }

  /** Some allowed order is what the command line says. */
  ghost predicate Permitted(env: Env, command: string, args: seq<string>) {
    exists o :: Says(command, args, o) && Allowed(env, o)
  }

  lemma NamesExactly(command: string, program: string)
    requires '/' !in program
    ensures CommandName(command) == program <==> Names(command, program)
  {
    var segs := Split(command, '/');
    if CommandName(command) == program {
      JoinSplit(command, '/');
      if |segs| > 1 {
        var dirs := segs[..|segs| - 1];
        JoinConcat(dirs, [program], '/');
        assert dirs + [program] == segs;
        assert command == Join(dirs, '/') + "/" + program;
      }
    }
    SplitWhole(program, '/');
    if dir :| command == dir + "/" + program {
      CommandNameOf(dir, program);
    }
  }

  lemma UserBetweenExactly(t: string, pre: string, post: string)
    ensures UserBetween(t, pre, post) <==> UserFile(t, pre, post)
  {
    hide SafeUser;
    if UserBetween(t, pre, post) {
      assert t == pre + Middle(t, pre, post) + post;
    }
    if user :| SafeUser(user) && t == pre + user + post {
      AffixedBuild(pre, user, post);
    }
  }

  /** "root" has the form of a tenant's user name. */
  lemma RootIsSafe()
    ensures SafeUser("root")
  {
  }

  lemma InstallExactly(env: Env, args: seq<string>)
    ensures ValidateInstall(env, args) == Accepted
       <==> exists mode, owner, path ::
              args == ArgsOf(MakeDir(mode, owner, path)) && MakeDirAllowed(env, mode, owner, path)
  {
    hide SafeUser, JoinPosix;
    RootIsSafe();
    if ValidateInstall(env, args) == Accepted {
      assert args == ArgsOf(MakeDir(args[2], args[4], args[7]));
    }
  }

  lemma ArtifactExactly(env: Env, source: string)
    ensures TenantEnvSource(env, source) <==> exists slug :: ArtifactOf(env, source, slug)
  {
    hide SlugDir, ProvisionerDir;
    var pre := ProvisionerDir(env.dataDir) + "/";
    if TenantEnvSource(env, source) {
      assert source == pre + Middle(source, pre, ENV_FILE) + ENV_FILE;
      assert ArtifactOf(env, source, Middle(source, pre, ENV_FILE));
    }
    if slug :| ArtifactOf(env, source, slug) {
      AffixedBuild(pre, slug, ENV_FILE);
    }
  }

  lemma CpExactly(env: Env, args: seq<string>)
    ensures ValidateCp(env, args) == Accepted
       <==> exists flag, source, target ::
              args == ArgsOf(Copy(flag, source, target)) && CopyAllowed(env, flag, source, target)
  {
    hide UserFile, UserBetween, TenantEnvSource, ArtifactOf, UnitTemplate, JoinPosix;
    if |args| == 3 {
      UserBetweenExactly(args[2], JoinPosix([env.homeRoot]) + "/", "/" + ".openclaw/openclaw.json");
      UserBetweenExactly(args[2], TENANTS_DIR + "/", ".env");
      ArtifactExactly(env, args[1]);
      assert args == ArgsOf(Copy(args[0], args[1], args[2]));
      assert ValidateCp(env, args) == Accepted <==> CopyAllowed(env, args[0], args[1], args[2]);
    }
  }

  lemma OwnersExactly(owners: string, user: string)
    requires SafeUser(user)
    ensures var fields := Split(owners, ':');
            (|fields| >= 2 && fields[0] == user && fields[1] == user) <==> OwnedBy(owners, user)
  {
    hide Split, SafeUser;
    var fields := Split(owners, ':');
    SafeUserPlain(user);
    SplitWhole(user, ':');
    SplitConcat(user, user, ':');
    if |fields| >= 2 && fields[0] == user && fields[1] == user {
      JoinSplit(owners, ':');
      assert [user, user] + fields[2..] == fields;
      if |fields| > 2 {
        JoinConcat([user, user], fields[2..], ':');
        assert owners == user + ":" + user + ":" + Join(fields[2..], ':');
      }
    }
    if rest :| owners == user + ":" + user + ":" + rest {
      SplitConcat(user + ":" + user, rest, ':');
    }
  }

  lemma ChownExactly(env: Env, args: seq<string>)
    ensures ValidateChown(env, args) == Accepted
       <==> exists owners, path :: args == ArgsOf(Own(owners, path)) && OwnAllowed(env, owners, path)
  {
    hide SafeUser, Split, OwnedBy, JoinPosix;
    if |args| == 3 {
      var fields := Split(args[1], ':');
      if SafeUser(fields[0]) {
        OwnersExactly(args[1], fields[0]);
      }
      if user :| SafeUser(user) && OwnedBy(args[1], user) && args[2] == JoinPosix([env.homeRoot, user]) {
        OwnersExactly(args[1], user);
      }
      assert args[0] == "-R" ==> args == ArgsOf(Own(args[1], args[2]));
      assert ValidateChown(env, args) == Accepted <==> args[0] == "-R" && OwnAllowed(env, args[1], args[2]);
    }
  }

  lemma RmFileExactly(env: Env, args: seq<string>)
    requires |args| == 2
    ensures ValidateRm(env, args) == Accepted
       <==> (args == ArgsOf(RemoveFile(args[1])) && Allowed(env, RemoveFile(args[1])))
            || (args == ArgsOf(RemoveTree(args[1])) && Allowed(env, RemoveTree(args[1])))
  {
    hide UserFile, UserBetween, JoinPosix;
    UserBetweenExactly(args[1], TENANTS_DIR + "/", ".env");
    UserBetweenExactly(args[1], JoinPosix([env.homeRoot]) + "/", "/" + ".openclaw");
    UserBetweenExactly(args[1], JoinPosix([env.homeRoot]) + "/", "/" + env.workspaceDir);
    assert "-f" != "-rf";
    assert args == [args[0], args[1]];
  }

  lemma SystemctlExactly(env: Env, args: seq<string>)
    ensures ValidateSystemctl(args) == Accepted
       <==> args == ArgsOf(Reload)
            || exists verb, user :: args == ArgsOf(Switch(verb, user)) && Allowed(env, Switch(verb, user))
  {
    hide SafeUser;
    if |args| == 3 {
      UserBetweenExactly(args[2], "openclaw-gateway@", ".service");
      if ValidateSystemctl(args) == Accepted {
        var user :| SafeUser(user) && args[2] == "openclaw-gateway@" + user + ".service";
        assert args == ArgsOf(Switch(args[0], user)) && Allowed(env, Switch(args[0], user));
      }
    }
  }

  /** The program name alone selects the daemon's rule. */
  lemma RuleFor(env: Env, command: string, args: seq<string>, program: string)
    requires CommandName(command) == program
    ensures var ok := ValidateCommand(env, command, args) == Accepted;
            && (program == "useradd" ==> (ok <==> exists user :: args == ArgsOf(AddUser(user)) && SafeUser(user)))
            && (program == "userdel" ==> (ok <==> exists user :: args == ArgsOf(RemoveUser(user)) && SafeUser(user)))
            && (program == "install" ==> (ok <==> ValidateInstall(env, args) == Accepted))
            && (program == "cp" ==> (ok <==> ValidateCp(env, args) == Accepted))
            && (program == "chown" ==> (ok <==> ValidateChown(env, args) == Accepted))
            && (program == "rm" ==> (ok <==> ValidateRm(env, args) == Accepted))
            && (program == "systemctl" ==> (ok <==> ValidateSystemctl(args) == Accepted))
            && (program == "true" ==> (ok <==> args == []))
  {
    hide ValidateInstall, ValidateCp, ValidateChown, ValidateRm, ValidateSystemctl, SafeUser;
    assert command == "" ==> program == "";
    assert "install"[0] == 'i' && "useradd"[4] == 'a' && "userdel"[4] == 'd';
    assert "systemctl"[0] == 's' && "true"[0] == 't';
    if program == "useradd" && |args| == 4 {
      assert args == ["-m", "-s", "/bin/bash", args[3]] || ValidateCommand(env, command, args) != Accepted;
    }
    if program == "userdel" && |args| == 2 {
      assert args == ["-r", args[1]] || ValidateCommand(env, command, args) != Accepted;
    }
  }

  lemma PermittedBy(env: Env, command: string, args: seq<string>, o: Order)
    requires Says(command, args, o) && Allowed(env, o)
    ensures Permitted(env, command, args)
  {
  }

  lemma AcceptedIsPermitted(env: Env, command: string, args: seq<string>)
    requires ValidateCommand(env, command, args) == Accepted
    ensures Permitted(env, command, args)
  {
    hide ValidateInstall, ValidateCp, ValidateChown, ValidateRm, ValidateSystemctl, Permitted, SafeUser;
    hide CopyAllowed, OwnAllowed, MakeDirAllowed, UserFile, TenantTree;
    var program := CommandName(command);
    RuleFor(env, command, args, program);
    assert '/' !in program by { SplitFree(command, '/'); }
    NamesExactly(command, program);
    if program == "useradd" {
      var user :| args == ArgsOf(AddUser(user)) && SafeUser(user);
      PermittedBy(env, command, args, AddUser(user));
    } else if program == "install" {
      InstallExactly(env, args);
      var mode, owner, path :| args == ArgsOf(MakeDir(mode, owner, path)) && MakeDirAllowed(env, mode, owner, path);
      PermittedBy(env, command, args, MakeDir(mode, owner, path));
    } else if program == "cp" {
      CpExactly(env, args);
      var flag, source, target :| args == ArgsOf(Copy(flag, source, target)) && CopyAllowed(env, flag, source, target);
      PermittedBy(env, command, args, Copy(flag, source, target));
    } else if program == "chown" {
      ChownExactly(env, args);
      var owners, path :| args == ArgsOf(Own(owners, path)) && OwnAllowed(env, owners, path);
      PermittedBy(env, command, args, Own(owners, path));
    } else if program == "rm" {
      assert |args| == 2 by { RmTwo(env, args); }
      RmFileExactly(env, args);
      var o := if args == ArgsOf(RemoveFile(args[1])) then RemoveFile(args[1]) else RemoveTree(args[1]);
      assert "-f" != "-rf";
      PermittedBy(env, command, args, o);
    } else if program == "userdel" {
      var user :| args == ArgsOf(RemoveUser(user)) && SafeUser(user);
      PermittedBy(env, command, args, RemoveUser(user));
    } else if program == "true" {
      PermittedBy(env, command, args, Nothing);
    } else {
      SystemctlExactly(env, args);
      if args == ArgsOf(Reload) {
        PermittedBy(env, command, args, Reload);
      } else {
        var verb, user :| args == ArgsOf(Switch(verb, user)) && Allowed(env, Switch(verb, user));
        PermittedBy(env, command, args, Switch(verb, user));
      }
    }
  }

  lemma RmTwo(env: Env, args: seq<string>)
    requires ValidateRm(env, args) == Accepted
    ensures |args| == 2
  {
  }

  lemma PermittedIsAccepted(env: Env, command: string, args: seq<string>, o: Order)
    requires Says(command, args, o) && Allowed(env, o)
    ensures ValidateCommand(env, command, args) == Accepted
  {
    hide ValidateCommand, ValidateInstall, ValidateCp, ValidateChown, ValidateRm, ValidateSystemctl, SafeUser;
    hide CopyAllowed, OwnAllowed, MakeDirAllowed, UserFile, TenantTree, Names, CommandName;
    NamesExactly(command, ProgramOf(o));
    RuleFor(env, command, args, ProgramOf(o));
    match o
    case MakeDir(_, _, _) => InstallExactly(env, args);
    case Copy(_, _, _) => CpExactly(env, args);
    case Own(_, _) => ChownExactly(env, args);
    case RemoveFile(_) => RmFileExactly(env, args);
    case RemoveTree(_) => RmFileExactly(env, args);
    case Reload => SystemctlExactly(env, args);
    case Switch(_, _) => SystemctlExactly(env, args);
    case _ =>
  }

  /**
    The daemon accepts a command line exactly when it says one of the orders of the language and
    that order is allowed; everything else, any other program included, is refused.
   */
  lemma CommandsExactly(env: Env, command: string, args: seq<string>)
    ensures ValidateCommand(env, command, args) == Accepted <==> Permitted(env, command, args)
  {
    hide ValidateCommand, Says, Allowed;
    if ValidateCommand(env, command, args) == Accepted {
      AcceptedIsPermitted(env, command, args);
    }
    if o :| Says(command, args, o) && Allowed(env, o) {
      PermittedIsAccepted(env, command, args, o);
    }
  }

  /**
    Root may own the tenants directory, and, since "root" has the form of a user name, the two
    directories a tenant of that name would have; no other.
   */
  lemma RootOwnedExactly(env: Env, command: string, mode: string, path: string)
    requires Names(command, "install") && (mode == "0750" || mode == "0700")
    ensures ValidateCommand(env, command, ArgsOf(MakeDir(mode, "root", path))) == Accepted <==>
              path in {"/etc/openclaw-tenants", JoinPosix([env.homeRoot, "root", ".openclaw"]),
                       JoinPosix([env.homeRoot, "root", env.workspaceDir])}
  {
    hide ValidateCommand, ValidateInstall, JoinPosix, Names, CommandName, SafeUser;
    var args := ArgsOf(MakeDir(mode, "root", path));
    RootIsSafe();
    NamesExactly(command, "install");
    RuleFor(env, command, args, "install");
    InstallExactly(env, args);
    assert args[2] == mode && args[4] == "root" && args[7] == path;
  }

  // ---- Every planned command against the allow-list ---------------------------

  lemma EnvSourceForm(env: Env, slug: string)
    requires ValidSlug(slug)
    ensures ArtifactDir(env, slug) == ProvisionerDir(env.appDataDir) + "/" + slug
  {
    hide NonEmpty, Split;
    SlugPlain(slug);
    NamePlain("provisioner");
    PathJoinExtend(env.appDataDir, ["provisioner"], slug);
    assert [env.appDataDir] + ["provisioner"] == [env.appDataDir, "provisioner"];
    assert [env.appDataDir] + ["provisioner"] + [slug] == [env.appDataDir, "provisioner", slug];
  }

  /** A path has one directory and one last segment. */
  lemma LastSlash(a: string, x: string, b: string, y: string)
    requires '/' !in x && '/' !in y
    ensures a + "/" + x == b + "/" + y <==> a == b && x == y
  {
    SplitConcat(a, x, '/');
    SplitConcat(b, y, '/');
    SplitWhole(x, '/');
    SplitWhole(y, '/');
    JoinSplit(a, '/');
    JoinSplit(b, '/');
    var s, t := Split(a, '/') + [x], Split(b, '/') + [y];
    if s == t {
      assert s[..|s| - 1] == Split(a, '/') && t[..|t| - 1] == Split(b, '/');
      assert s[|s| - 1] == t[|t| - 1];
    }
  }

  lemma SlugNoSlash(s: string)
    requires SlugDir(s)
    ensures '/' !in s
  {
    forall c | c in s ensures c != '/' {
      var i :| 0 <= i < |s| && s[i] == c;
      assert SlugChar(s[i]);
    }
  }

  /** The daemon knows the planned env source exactly when both sides keep their artifacts in one place. */
  lemma EnvSourceKnown(env: Env, slug: string)
    requires ValidSlug(slug)
    ensures TenantEnvSource(env, ArtifactDir(env, slug) + ENV_FILE)
       <==> ProvisionerDir(env.appDataDir) == ProvisionerDir(env.dataDir)
  {
    hide ProvisionerDir, ArtifactDir, Split;
    EnvSourceForm(env, slug);
    SlugPlain(slug);
    SlugNoSlash(slug);
    var app, own := ProvisionerDir(env.appDataDir), ProvisionerDir(env.dataDir);
    var source := ArtifactDir(env, slug) + ENV_FILE;
    if app == own {
      AffixedBuild(own + "/", slug, ENV_FILE);
      assert source == own + "/" + slug + ENV_FILE;
    } else if TenantEnvSource(env, source) {
      var mid := Middle(source, own + "/", ENV_FILE);
      SlugNoSlash(mid);
      assert source == own + "/" + mid + ENV_FILE;
      assert source[..|source| - |ENV_FILE|] == own + "/" + mid == app + "/" + slug;
      LastSlash(app, slug, own, mid);
    }
  }

  lemma UnitTemplateTail(repoRoot: string)
    ensures var u := UnitTemplate(repoRoot); u != "" && u[|u| - 1] == 'e'
  {
    hide PathJoin, NonEmpty, Split;
    NamePlain("ops");
    NamePlain("templates");
    NamePlain("openclaw-gateway@.service");
    PathJoinExtend(repoRoot, ["ops", "templates"], "openclaw-gateway@.service");
    assert [repoRoot] + ["ops", "templates"] + ["openclaw-gateway@.service"] ==
           [repoRoot, "ops", "templates", "openclaw-gateway@.service"];
  }

  /** The last path segment of a command selects the daemon's rule for a step. */
  lemma RuleOf(env: Env, step: PlanStep, dir: string, name: string)
    requires '/' !in name && step.command == dir + "/" + name
    ensures name == "install" ==> (StepAccepted(env, step) <==> ValidateInstall(env, step.args) == Accepted)
    ensures name == "cp" ==> (StepAccepted(env, step) <==> ValidateCp(env, step.args) == Accepted)
    ensures name == "chown" ==> (StepAccepted(env, step) <==> ValidateChown(env, step.args) == Accepted)
    ensures name == "rm" ==> (StepAccepted(env, step) <==> ValidateRm(env, step.args) == Accepted)
    ensures name == "systemctl" ==> (StepAccepted(env, step) <==> ValidateSystemctl(step.args) == Accepted)
  {
    CommandNameOf(dir, name);
    assert "install"[0] == 'i' && "useradd"[0] == 'u' && "userdel"[0] == 'u' && "systemctl"[0] == 's';
  }

  lemma UserRuleOf(env: Env, step: PlanStep, user: string)
    requires SafeUser(user)
    requires (step.command == "/usr/sbin" + "/" + "useradd" && step.args == ["-m", "-s", "/bin/bash", user])
          || (step.command == "/usr/sbin" + "/" + "userdel" && step.args == ["-r", user])
    ensures StepAccepted(env, step)
  {
    var name := if |step.args| == 4 then "useradd" else "userdel";
    CommandNameOf("/usr/sbin", name);
    assert "useradd"[4] == 'a' && "userdel"[4] == 'd';
  }

  lemma InstallAccepted(env: Env, owner: string, target: string)
    requires (owner == "root" && target == TENANTS_DIR) || (SafeUser(owner) && InstallDir(env, owner, target))
    ensures ValidateInstall(env, InstallArgs(owner, target)) == Accepted
  {
  }

  lemma ChownAccepted(env: Env, user: string)
    requires SafeUser(user)
    ensures ValidateChown(env, ["-R", user + ":" + user, JoinPosix([env.homeRoot, user])]) == Accepted
  {
    SafeUserPlain(user);
    SplitConcat(user, user, ':');
    SplitWhole(user, ':');
  }

  lemma GatewayUnitOf(user: string)
    requires SafeUser(user)
    ensures GatewayUnit("openclaw-gateway@" + user + ".service")
  {
    AffixedBuild("openclaw-gateway@", user, ".service");
  }

  lemma TenantEnvFileOf(user: string)
    requires SafeUser(user)
    ensures TenantEnvFile(TENANTS_DIR + "/" + user + ".env")
  {
    AffixedBuild(TENANTS_DIR + "/", user, ".env");
  }

  /** The template copy is accepted exactly when both sides read the same template and the root is real. */
  lemma SeedAccepted(env: Env, user: string)
    requires SafeUser(user) && env.appTemplate != ""
    ensures ValidateCp(env, ["-n", env.appTemplate, JoinPosix([env.homeRoot, user, ".openclaw"]) + "/openclaw.json"])
            == Accepted
       <==> (HomeRootOk(env) && env.appTemplate == env.template)
  {
    hide PathJoin, CleanAll, Split, Clean, HomeFile, UnitTemplate, TenantEnvSource;
    NamePlain(".openclaw");
    TenantDir(env, user, ".openclaw");
    var suffix := ".openclaw/openclaw.json";
    var target := JoinPosix([env.homeRoot, user, ".openclaw"]) + "/openclaw.json";
    assert ".openclaw" + "/openclaw.json" == suffix;
    if HomeRootOk(env) {
      HomeFileBuild(env, user, suffix);
      assert target == JoinPosix([env.homeRoot]) + "/" + user + "/" + suffix;
    } else {
      HomeFileNeedsRoot(env, user, suffix, suffix);
      assert target == (if IsAbsolute(Clean(env.homeRoot)) then "/" else "") + user + "/" + suffix;
    }
    assert target != UNIT_TARGET by {
      assert target[|target| - 1] == 'n';
    }
  }

  lemma HomeFileLast(env: Env, target: string)
    requires target != "" && target[|target| - 1] != 'n'
    ensures !HomeFile(env, target, ".openclaw/openclaw.json")
  {
    var pre, post := JoinPosix([env.homeRoot]) + "/", "/" + ".openclaw/openclaw.json";
    assert post[|post| - 1] == 'n';
    if Affixed(target, pre, post) {
      AffixedLast(target, pre, post);
    }
  }

  lemma EnvSourceLast(env: Env, source: string)
    requires source != "" && source[|source| - 1] != 'v'
    ensures !TenantEnvSource(env, source)
  {
    hide ProvisionerDir;
    assert ENV_FILE[|ENV_FILE| - 1] == 'v';
    if Affixed(source, ProvisionerDir(env.dataDir) + "/", ENV_FILE) {
      AffixedLast(source, ProvisionerDir(env.dataDir) + "/", ENV_FILE);
    }
  }

  /** The unit copy is accepted exactly when both sides know one unit template that is not the openclaw one. */
  lemma UnitCopyAccepted(env: Env)
    ensures ValidateCp(env, ["-n", UnitTemplate(env.appRepoRoot), UNIT_TARGET]) == Accepted
       <==> (UnitTemplate(env.appRepoRoot) == UnitTemplate(env.repoRoot)
             && UnitTemplate(env.appRepoRoot) != env.template)
  {
    hide UnitTemplate, TenantEnvSource, HomeFile;
    UnitTemplateTail(env.appRepoRoot);
    EnvSourceLast(env, UnitTemplate(env.appRepoRoot));
    HomeFileLast(env, UNIT_TARGET);
  }

  /** The env copy is accepted exactly when both sides share the artifacts and it is not the openclaw template. */
  lemma EnvCopyAccepted(env: Env, slug: string, user: string)
    requires ValidSlug(slug) && SafeUser(user)
    ensures ValidateCp(env, ["-f", ArtifactDir(env, slug) + ENV_FILE, TENANTS_DIR + "/" + user + ".env"]) == Accepted
       <==> (ProvisionerDir(env.appDataDir) == ProvisionerDir(env.dataDir)
             && ArtifactDir(env, slug) + ENV_FILE != env.template)
  {
    hide PathJoin, Split, HomeFile, UnitTemplate, ArtifactDir, TenantEnvSource, ProvisionerDir;
    EnvSourceKnown(env, slug);
    UnitTemplateTail(env.repoRoot);
    TenantEnvFileOf(user);
    var source := ArtifactDir(env, slug) + ENV_FILE;
    assert source[|source| - 1] == ENV_FILE[|ENV_FILE| - 1] == 'v';
    assert source != UnitTemplate(env.repoRoot);
  }

  /** What a deployment must satisfy for the bootstrap of one tenant; every conjunct compares paths. */
  predicate DeploymentOk(env: Env, slug: string) {
    && HomeRootOk(env)
    && env.appTemplate == env.template
    && UnitTemplate(env.appRepoRoot) == UnitTemplate(env.repoRoot)
    && ProvisionerDir(env.appDataDir) == ProvisionerDir(env.dataDir)
    && UnitTemplate(env.appRepoRoot) != env.template
    && ArtifactDir(env, slug) + ENV_FILE != env.template
  }

  predicate PlannedFor(env: Env, t: Tenant) {
    && ValidSlug(t.slug) && SafeUser(t.user) && env.appTemplate != ""
    && t.openclawHome == JoinPosix([env.homeRoot, t.user, ".openclaw"])
    && t.workspaceRoot == JoinPosix([env.homeRoot, t.user, env.workspaceDir])
  }

  lemma BootstrapDirsAccepted(env: Env, t: Tenant)
    requires PlannedFor(env, t)
    ensures var plan := BootstrapPlan(env, t);
            forall i | i in {1, 2, 5} :: StepAccepted(env, plan[i])
  {
    hide ValidateCommand, ValidateInstall, ValidateCp, ValidateChown, PathJoin, CleanAll;
    var plan := BootstrapPlan(env, t);
    InstallAccepted(env, t.user, t.openclawHome);
    InstallAccepted(env, t.user, t.workspaceRoot);
    InstallAccepted(env, "root", TENANTS_DIR);
    RuleOf(env, plan[1], "/usr/bin", "install");
    RuleOf(env, plan[2], "/usr/bin", "install");
    RuleOf(env, plan[5], "/usr/bin", "install");
  }

  lemma BootstrapRestAccepted(env: Env, t: Tenant)
    requires PlannedFor(env, t)
    ensures var plan := BootstrapPlan(env, t);
            forall i | i in {0, 4, 8, 9} :: StepAccepted(env, plan[i])
  {
    hide ValidateCommand, ValidateInstall, ValidateCp, ValidateChown, PathJoin, CleanAll;
    var plan := BootstrapPlan(env, t);
    UserRuleOf(env, plan[0], t.user);
    ChownAccepted(env, t.user);
    RuleOf(env, plan[4], "/usr/bin", "chown");
    GatewayUnitOf(t.user);
    RuleOf(env, plan[8], "/usr/bin", "systemctl");
    RuleOf(env, plan[9], "/usr/bin", "systemctl");
  }

  lemma BootstrapCopies(env: Env, t: Tenant)
    requires PlannedFor(env, t)
    ensures (forall i | i in {3, 6, 7} :: StepAccepted(env, BootstrapPlan(env, t)[i])) <==> DeploymentOk(env, t.slug)
  {
    hide ValidateCommand, ValidateInstall, ValidateCp, ValidateChown;
    hide UnitTemplate, ArtifactDir, ProvisionerDir, CleanAll;
    var plan := BootstrapPlan(env, t);
    SeedAccepted(env, t.user);
    UnitCopyAccepted(env);
    EnvCopyAccepted(env, t.slug, t.user);
    RuleOf(env, plan[3], "/usr/bin", "cp");
    RuleOf(env, plan[6], "/usr/bin", "cp");
    RuleOf(env, plan[7], "/usr/bin", "cp");
  }

  /**
    Every command of the bootstrap plan of every accepted request passes the daemon's
    allow-list exactly in the deployments that satisfy DeploymentOk.
   */
  lemma BootstrapPlanAccepted(env: Env, r: BootstrapRequest, trim: string -> string, lower: string -> string)
    requires AcceptRequest(env, r, trim, lower).Some?
    ensures PlanAccepted(env, BootstrapPlan(env, AcceptRequest(env, r, trim, lower).value))
       <==> DeploymentOk(env, AcceptRequest(env, r, trim, lower).value.slug)
  {
    hide StepAccepted, PathJoin, CleanAll, DeploymentOk, HomeRootOk;
    var t := AcceptRequest(env, r, trim, lower).value;
    BootstrapDirsAccepted(env, t);
    BootstrapRestAccepted(env, t);
    BootstrapCopies(env, t);
    var plan := BootstrapPlan(env, t);
    assert |plan| == 10;
  }

  /** The state directory may be removed exactly when the root is real. */
  lemma RemoveStateAccepted(env: Env, user: string)
    requires SafeUser(user)
    ensures ValidateRm(env, ["-rf", JoinPosix([env.homeRoot, user, ".openclaw"])]) == Accepted <==> HomeRootOk(env)
  {
    NamePlain(".openclaw");
    if HomeRootOk(env) {
      InstallableIsRemovable(env, user, ".openclaw");
    } else {
      TenantDir(env, user, ".openclaw");
      HomeFileNeedsRoot(env, user, ".openclaw", ".openclaw");
      HomeFileNeedsRoot(env, user, ".openclaw", env.workspaceDir);
    }
  }

  /** The workspace setting leads from one tenant's home to the state directory of another. */
  ghost predicate LeadsToState(env: Env, user: string) {
    exists other :: SafeUser(other) && WorkspaceIsState(env, user, other)
  }

  predicate WorkspaceIsState(env: Env, user: string, other: string) {
    JoinPosix([env.homeRoot, user, env.workspaceDir]) == JoinPosix([env.homeRoot, other, ".openclaw"])
  }

  /** With a real root, the workspace may be removed exactly when its name is plain or leads to a state directory. */
  lemma RemoveWorkspaceAccepted(env: Env, user: string)
    requires SafeUser(user) && HomeRootOk(env)
    ensures RemovableDir(env, JoinPosix([env.homeRoot, user, env.workspaceDir]))
       <==> (PlainPath(env.workspaceDir) || LeadsToState(env, user))
  {
    hide PathJoin, CleanAll, Clean, Split, HomeRootOk, PlainPath;
    var base, ws := JoinPosix([env.homeRoot]), env.workspaceDir;
    var target := JoinPosix([env.homeRoot, user, ws]);
    NamePlain(".openclaw");
    if PlainPath(ws) {
      InstallableIsRemovable(env, user, ws);
    }
    if other :| SafeUser(other) && WorkspaceIsState(env, user, other) {
      InstallableIsRemovable(env, other, ".openclaw");
    }
    if HomeFile(env, target, ".openclaw") {
      var other := Middle(target, base + "/", "/" + ".openclaw");
      assert target == base + "/" + other + "/" + ".openclaw";
      TenantDir(env, other, ".openclaw");
      assert WorkspaceIsState(env, user, other);
    } else if HomeFile(env, target, ws) && !PlainPath(ws) {
      var other := Middle(target, base + "/", "/" + ws);
      assert target == base + "/" + other + "/" + ws;
      NotNormal(base, other, ws);
      JoinedIsNormal([env.homeRoot, user, ws]);
    }
  }

  /** A workspace setting that climbs into the state directory of `other` is accepted for every tenant. */
  lemma ClimbingWorkspaceAccepted(env: Env, user: string, other: string)
    requires SafeUser(user) && SafeUser(other) && HomeRootOk(env)
    requires env.workspaceDir == "../" + (other + "/" + ".openclaw")
    ensures !PlainPath(env.workspaceDir)
    ensures ValidateRm(env, ["-rf", JoinPosix([env.homeRoot, user, env.workspaceDir])]) == Accepted
  {
    hide PathJoin, CleanAll, Clean, Split, HomeRootOk, RemovableDir, RootStack, SafeUser;
    SafeUserPlain(user);
    SafeUserPlain(other);
    NamePlain(".openclaw");
    var q := other + "/" + ".openclaw";
    assert env.workspaceDir == ".." + ['/'] + q;
    SplitConcat("..", q, '/');
    SplitWhole("..", '/');
    assert ".." in Split(env.workspaceDir, '/') && !Plain("..");
    HomeRootOkStack(env);
    PlainConcat(other, ".openclaw");
    JoinPosixClimb(env.homeRoot, user, q);
    TenantDir(env, other, ".openclaw");
    assert WorkspaceIsState(env, user, other);
    RemoveWorkspaceAccepted(env, user);
  }

  /**
    Every command of the decommission plan of such a tenant passes exactly when the plan removes
    no state directories, or the home root is real and the workspace name is plain or leads to a
    tenant's state directory.
   */
  lemma DecommissionPlanAccepted(env: Env, r: BootstrapRequest, trim: string -> string, lower: string -> string,
                                 removeUser: bool, removeDirs: bool)
    requires AcceptRequest(env, r, trim, lower).Some?
    ensures var t := AcceptRequest(env, r, trim, lower).value;
            PlanAccepted(env, DecommissionPlan(t, removeUser, removeDirs))
            <==> (removeUser || !removeDirs
                  || (HomeRootOk(env) && (PlainPath(env.workspaceDir) || LeadsToState(env, t.user))))
  {
    hide StepAccepted, PathJoin, CleanAll, Split, HomeRootOk, RemovableDir, InstallDir, PlainPath, LeadsToState;
    var t := AcceptRequest(env, r, trim, lower).value;
    var plan := DecommissionPlan(t, removeUser, removeDirs);
    GatewayUnitOf(t.user);
    RuleOf(env, plan[0], "/usr/bin", "systemctl");
    TenantEnvFileOf(t.user);
    RuleOf(env, plan[1], "/usr/bin", "rm");
    assert StepAccepted(env, plan[0]) && StepAccepted(env, plan[1]);
    if removeUser {
      UserRuleOf(env, plan[2], t.user);
    } else if removeDirs {
      RemoveStateAccepted(env, t.user);
      RuleOf(env, plan[2], "/usr/bin", "rm");
      RuleOf(env, plan[3], "/usr/bin", "rm");
      assert StepAccepted(env, plan[2]) <==> HomeRootOk(env);
      if HomeRootOk(env) {
        RemoveWorkspaceAccepted(env, t.user);
      }
    }
  }

  // ---- What requests and plans say ---------------------------------------------

  const LETTERS := {'a', 'b', 'c', 'd', 'e', 'f', 'g', 'h', 'i', 'j', 'k', 'l', 'm',
                    'n', 'o', 'p', 'q', 'r', 's', 't', 'u', 'v', 'w', 'x', 'y', 'z'}
  const DIGITS := {'0', '1', '2', '3', '4', '5', '6', '7', '8', '9'}

  /** User names and slugs by their alphabets. */
  lemma AlphabetsExactly(u: string)
    ensures SafeUser(u) <==>
              2 <= |u| <= 31 && u[0] in LETTERS + {'_'}
              && forall i | 1 <= i < |u| :: u[i] in LETTERS + DIGITS + {'_', '-'}
    ensures SlugDir(u) <==> 3 <= |u| <= 32 && forall i | 0 <= i < |u| :: u[i] in LETTERS + DIGITS + {'-'}
    ensures ValidSlug(u) <==> SlugDir(u) && u[0] != '-' && u[|u| - 1] != '-'
  {
    forall c: char ensures LowerAlpha(c) <==> c in LETTERS {}
    forall c: char ensures Digit(c) <==> c in DIGITS {}
  }

  /**
    A tenant request is accepted exactly when a template is configured, the slug is valid, the
    display name not blank, the given or derived user name safe, the gateway port given and both
    ports within 1024 to 65535.
   */
  lemma AcceptExactly(env: Env, r: BootstrapRequest, trim: string -> string, lower: string -> string)
    ensures var t := AcceptRequest(env, r, trim, lower);
            var user := lower(if r.linuxUser != "" then r.linuxUser else "oc-" + lower(r.slug));
            && (t.Some? <==>
                  env.appTemplate != "" && ValidSlug(lower(r.slug)) && trim(r.displayName) != "" && SafeUser(user)
                  && r.gatewayPort.Some? && 1024 <= r.gatewayPort.value <= 65535
                  && (r.dashboardPort.None? || 1024 <= r.dashboardPort.value <= 65535))
            && (t.Some? ==>
                  t.value.slug == lower(r.slug) && t.value.user == user
                  && t.value.openclawHome == JoinPosix([env.homeRoot, user, ".openclaw"])
                  && t.value.workspaceRoot == JoinPosix([env.homeRoot, user, env.workspaceDir]))
  {
    hide SafeUser, ValidSlug, JoinPosix;
  }

  /** What a bootstrap orders, step by step. */
  function BootstrapOrders(env: Env, t: Tenant): (r: seq<Order>)
    ensures |r| == 10
  {
    [ AddUser(t.user),
      MakeDir("0750", t.user, t.openclawHome),
      MakeDir("0750", t.user, t.workspaceRoot),
      Copy("-n", env.appTemplate, t.openclawHome + "/openclaw.json"),
      Own(t.user + ":" + t.user, JoinPosix([env.homeRoot, t.user])),
      MakeDir("0750", "root", "/etc/openclaw-tenants"),
      Copy("-n", UnitTemplate(env.appRepoRoot), "/etc/systemd/system/openclaw-gateway@.service"),
      Copy("-f", ArtifactDir(env, t.slug) + "/openclaw-gateway.env", "/etc/openclaw-tenants" + "/" + t.user + ".env"),
      Reload,
      Switch("enable", t.user) ]
  }

  function DecommissionOrders(t: Tenant, removeUser: bool, removeDirs: bool): seq<Order> {
    [Switch("disable", t.user), RemoveFile("/etc/openclaw-tenants" + "/" + t.user + ".env")]
    + (if removeUser then [RemoveUser(t.user)]
       else if removeDirs then [RemoveTree(t.openclawHome), RemoveTree(t.workspaceRoot)]
       else [])
  }

  ghost predicate PlanSays(plan: seq<PlanStep>, orders: seq<Order>) {
    |plan| == |orders| && forall i | 0 <= i < |plan| :: Says(plan[i].command, plan[i].args, orders[i])
  }

  lemma SaysIn(step: PlanStep, o: Order, dir: string)
    requires step.command == dir + "/" + ProgramOf(o) && step.args == ArgsOf(o)
    ensures Says(step.command, step.args, o)
  {
  }

  function Keys(plan: seq<PlanStep>): (r: seq<string>)
    ensures |r| == |plan|
  {
    seq(|plan|, i requires 0 <= i < |plan| => plan[i].key)
  }

  /** The keys under which a plan's progress is reported. */
  lemma StepKeys(env: Env, t: Tenant)
    ensures Keys(BootstrapPlan(env, t)) ==
            ["create-linux-user", "create-openclaw-state", "create-workspace-root", "seed-openclaw-template",
             "set-owner-home", "ensure-openclaw-tenants-dir", "install-gateway-systemd-template",
             "install-tenant-gateway-env", "systemd-daemon-reload", "enable-start-gateway"]
    ensures Keys(DecommissionPlan(t, false, true)) ==
            ["disable-stop-gateway", "remove-tenant-gateway-env", "remove-openclaw-state-dir", "remove-workspace-dir"]
    ensures Keys(DecommissionPlan(t, true, false)) ==
            ["disable-stop-gateway", "remove-tenant-gateway-env", "remove-linux-user"]
  {
    hide JoinPosix, UnitTemplate, ArtifactDir;
  }

  lemma BootstrapSays(env: Env, t: Tenant)
    ensures PlanSays(BootstrapPlan(env, t), BootstrapOrders(env, t))
  {
    hide JoinPosix, UnitTemplate, ArtifactDir, Says;
    var plan, orders := BootstrapPlan(env, t), BootstrapOrders(env, t);
    SaysIn(plan[0], orders[0], "/usr/sbin");
    SaysIn(plan[1], orders[1], "/usr/bin");
    SaysIn(plan[2], orders[2], "/usr/bin");
    SaysIn(plan[3], orders[3], "/usr/bin");
    SaysIn(plan[4], orders[4], "/usr/bin");
    SaysIn(plan[5], orders[5], "/usr/bin");
    SaysIn(plan[6], orders[6], "/usr/bin");
    SaysIn(plan[7], orders[7], "/usr/bin");
    SaysIn(plan[8], orders[8], "/usr/bin");
    SaysIn(plan[9], orders[9], "/usr/bin");
  }

  lemma DecommissionSays(t: Tenant, removeUser: bool, removeDirs: bool)
    ensures PlanSays(DecommissionPlan(t, removeUser, removeDirs), DecommissionOrders(t, removeUser, removeDirs))
  {
    hide Says;
    var plan, orders := DecommissionPlan(t, removeUser, removeDirs), DecommissionOrders(t, removeUser, removeDirs);
    SaysIn(plan[0], orders[0], "/usr/bin");
    SaysIn(plan[1], orders[1], "/usr/bin");
    if removeUser {
      SaysIn(plan[2], orders[2], "/usr/sbin");
    } else if removeDirs {
      SaysIn(plan[2], orders[2], "/usr/bin");
      SaysIn(plan[3], orders[3], "/usr/bin");
    }
  }

  /** The order that takes a tenant's own order back; what tenants share stays. */
  function Undo(t: Tenant, o: Order): Option<Order> {
    match o
    case AddUser(user) => Some(RemoveUser(user))
    case MakeDir(_, _, path) =>
      if path == t.openclawHome || path == t.workspaceRoot then Some(RemoveTree(path)) else None
    case Copy(flag, _, target) => if flag == "-f" then Some(RemoveFile(target)) else None
    case Switch(verb, user) => if verb == "enable" then Some(Switch("disable", user)) else None
    case _ => None
  }

  lemma UndoneOrders(env: Env, t: Tenant)
    ensures var b := BootstrapOrders(env, t);
            && Undo(t, b[0]) == Some(RemoveUser(t.user))
            && Undo(t, b[1]) == Some(RemoveTree(t.openclawHome)) && Undo(t, b[2]) == Some(RemoveTree(t.workspaceRoot))
            && Undo(t, b[7]) == Some(RemoveFile("/etc/openclaw-tenants" + "/" + t.user + ".env"))
            && Undo(t, b[9]) == Some(Switch("disable", t.user))
            && (forall i | i in {3, 4, 6, 8} :: Undo(t, b[i]).None?)
            && Undo(t, b[5]) in {None, Some(RemoveTree(t.openclawHome)), Some(RemoveTree(t.workspaceRoot))}
  {
    hide JoinPosix, UnitTemplate, ArtifactDir;
    assert "-n"[1] == 'n' && "-f"[1] == 'f';
  }

  /**
    A decommissioning takes back orders of the bootstrap and gives no others: always the gateway
    and its env file, the user if asked to, the two directories if asked to and the user stays.
   */
  lemma DecommissionUndoes(env: Env, t: Tenant, removeUser: bool, removeDirs: bool, o: Order)
    ensures o in DecommissionOrders(t, removeUser, removeDirs) <==>
              (exists b :: b in BootstrapOrders(env, t) && Undo(t, b) == Some(o))
              && (o.RemoveUser? ==> removeUser) && (o.RemoveTree? ==> removeDirs && !removeUser)
  {
    hide BootstrapOrders, Undo;
    UndoneOrders(env, t);
    var boot := BootstrapOrders(env, t);
    if o in DecommissionOrders(t, removeUser, removeDirs) {
      assert boot[0] in boot && boot[1] in boot && boot[2] in boot && boot[7] in boot && boot[9] in boot;
    }
  }

  const UNIT_BELOW_ROOT := "ops" + "/" + ("templates" + "/" + "openclaw-gateway@.service")

  /** Where the unit template and the artifacts lie, below what the configured directories normalise to. */
  lemma ConfiguredPlaces(env: Env, slug: string)
    requires ValidSlug(slug)
    ensures UnitTemplate(env.repoRoot) == DirPrefix(env.repoRoot) + UNIT_BELOW_ROOT
    ensures UnitTemplate(env.appRepoRoot) == DirPrefix(env.appRepoRoot) + UNIT_BELOW_ROOT
    ensures ProvisionerDir(env.dataDir) == DirPrefix(env.dataDir) + "provisioner"
    ensures ArtifactDir(env, slug) == DirPrefix(env.appDataDir) + "provisioner" + "/" + slug
  {
    hide UnitTemplate, ProvisionerDir, ArtifactDir, DirPrefix;
    UnitTemplateForm(env.repoRoot);
    UnitTemplateForm(env.appRepoRoot);
    EnvSourceForm(env, slug);
    ProvisionerForm(env.dataDir);
    ProvisionerForm(env.appDataDir);
  }

  lemma ProvisionerForm(dataDir: string)
    ensures ProvisionerDir(dataDir) == DirPrefix(dataDir) + "provisioner"
  {
    hide PathJoin, DirPrefix, Split;
    NamePlain("provisioner");
    PathJoinTail(dataDir, ["provisioner"]);
    assert [dataDir] + ["provisioner"] == [dataDir, "provisioner"];
  }

  lemma UnitTemplateForm(repoRoot: string)
    ensures UnitTemplate(repoRoot) == DirPrefix(repoRoot) + UNIT_BELOW_ROOT
  {
    hide PathJoin, DirPrefix, Split;
    NamePlain("ops");
    NamePlain("templates");
    NamePlain("openclaw-gateway@.service");
    var parts := ["ops", "templates", "openclaw-gateway@.service"];
    PathJoinTail(repoRoot, parts);
    assert [repoRoot] + parts == [repoRoot, "ops", "templates", "openclaw-gateway@.service"];
    assert parts[1..] == ["templates", "openclaw-gateway@.service"] && parts[1..][1..] == ["openclaw-gateway@.service"];
    assert Join(parts, '/') == UNIT_BELOW_ROOT;
  }

  /** Slugs of 29 to 32 characters are valid, yet the user name derived from them is not. */
  lemma DefaultUserAccepted(slug: string)
    requires ValidSlug(slug)
    ensures SafeUser("oc-" + slug) <==> |slug| <= 28
  {
    var user := "oc-" + slug;
    forall i | 1 <= i < |user| ensures UserTail(user[i]) {
      if i >= 3 {
        assert user[i] == slug[i - 3] && SlugChar(slug[i - 3]);
      }
    }
  }
}
