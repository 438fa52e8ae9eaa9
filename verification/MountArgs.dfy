/** Translating mount options to gcsfuse's command line flags and config file flags
    (pkg/sidecar_mounter/sidecar_mounter_config.go: prepareMountArgs, mergeFlags). */
module MountArgs {
  import opened GoStrings

  const APP_NAME := "app-name"
  const TEMP_DIR := "temp-dir"
  const CONFIG_FILE := "config-file"
  const FOREGROUND := "foreground"
  const PROMETHEUS_PORT := "prometheus-port"
  const O := "o"
  const CACHE_DIR := "cache-dir"
  const LOG_FILE := "logging:file-path"
  const LOG_FORMAT := "logging:format"
  const KERNEL_PARAMS_FILE := "file-system:kernel-params-file"
  const DISABLE_METRICS := "disable-metrics-for-gke"
  const FILE_CACHE_SIZE := "file-cache:max-size-mb"
  const CUSTOM_ENDPOINT := "gcs-connection:custom-endpoint"
  const CLOUD_PROFILER := "enable-cloud-profiler"
  const CLOUD_PROFILER_LABEL := "cloud-profiler-label"

  const DRIVER_APP_NAME := "gke-gcs-fuse-csi"

  /** The keys of the source's DisallowedFlags. */
  predicate Disallowed(flag: string) {
    flag in {"log-file", "log-format", O, CACHE_DIR, TEMP_DIR, CONFIG_FILE, FOREGROUND, "key-file", "token-url",
             "reuse-token-from-url", PROMETHEUS_PORT, "kernel-params-file", KERNEL_PARAMS_FILE}
  }

  /** Options that set a field of the mount configuration instead of a flag. */
  datatype Setting =
    | IdentityProvider | IdentityPool | HostNetworkKSA | BucketAccessCheck | PodNamespace | ServiceAccountName
    | PodName | PodUID | CloudProfilerForSidecar | FileCacheMedium | NumaNode | KernelParams | AutoGoMemLimit
    | GoMemLimitRatio | StorageEndpoint

  const IDENTITY_PROVIDER := "token-server-identity-provider"
  const IDENTITY_POOL := "token-server-identity-pool"
  const HOST_NETWORK_KSA := "hnw-ksa"
  const BUCKET_ACCESS_CHECK := "enable-sidecar-bucket-access-check"
  const POD_NAMESPACE := "pod-namespace"
  const SERVICE_ACCOUNT_NAME := "service-account-name"
  const POD_NAME := "pod-name"
  const POD_UID := "pod-uid"
  const PROFILER_FOR_SIDECAR := "enable-cloud-profiler-for-sidecar"
  const MEDIUM_FLAG := "file-cache-medium"
  const NUMA_NODE := "gcs-fuse-numa-node"
  const KERNEL_PARAMS := "enable-gcsfuse-kernel-params"
  const AUTO_GOMEMLIMIT := "enable-auto-gomemlimit"
  const GOMEMLIMIT_RATIO := "auto-gomemlimit-ratio"
  const STORAGE_ENDPOINT := "storage-endpoint-internal"

  function SettingOf(flag: string): Option<Setting> {
    if flag == IDENTITY_PROVIDER then Some(IdentityProvider)
    else if flag == IDENTITY_POOL then Some(IdentityPool)
    else if flag == HOST_NETWORK_KSA then Some(HostNetworkKSA)
    else if flag == BUCKET_ACCESS_CHECK then Some(BucketAccessCheck)
    else if flag == POD_NAMESPACE then Some(PodNamespace)
    else if flag == SERVICE_ACCOUNT_NAME then Some(ServiceAccountName)
    else if flag == POD_NAME then Some(PodName)
    else if flag == POD_UID then Some(PodUID)
    else if flag == PROFILER_FOR_SIDECAR then Some(CloudProfilerForSidecar)
    else if flag == MEDIUM_FLAG then Some(FileCacheMedium)
    else if flag == NUMA_NODE then Some(NumaNode)
    else if flag == KERNEL_PARAMS then Some(KernelParams)
    else if flag == AUTO_GOMEMLIMIT then Some(AutoGoMemLimit)
    else if flag == GOMEMLIMIT_RATIO then Some(GoMemLimitRatio)
    else if flag == STORAGE_ENDPOINT then Some(StorageEndpoint)
    else None
  }

  function NameOf(s: Setting): string {
    match s
    case IdentityProvider => IDENTITY_PROVIDER
    case IdentityPool => IDENTITY_POOL
    case HostNetworkKSA => HOST_NETWORK_KSA
    case BucketAccessCheck => BUCKET_ACCESS_CHECK
    case PodNamespace => POD_NAMESPACE
    case ServiceAccountName => SERVICE_ACCOUNT_NAME
    case PodName => POD_NAME
    case PodUID => POD_UID
    case CloudProfilerForSidecar => PROFILER_FOR_SIDECAR
    case FileCacheMedium => MEDIUM_FLAG
    case NumaNode => NUMA_NODE
    case KernelParams => KERNEL_PARAMS
    case AutoGoMemLimit => AUTO_GOMEMLIMIT
    case GoMemLimitRatio => GOMEMLIMIT_RATIO
    case StorageEndpoint => STORAGE_ENDPOINT
  }

  /** The lengths tell the names apart, but for two. */
  lemma NameLengths()
    ensures |IDENTITY_PROVIDER| == 30 && |IDENTITY_POOL| == 26 && |HOST_NETWORK_KSA| == 7
    ensures |BUCKET_ACCESS_CHECK| == 34 && |POD_NAMESPACE| == 13 && |SERVICE_ACCOUNT_NAME| == 20
    ensures |POD_NAME| == 8 && |POD_UID| == 7 && |PROFILER_FOR_SIDECAR| == 33
    ensures |MEDIUM_FLAG| == 17 && |NUMA_NODE| == 18 && |KERNEL_PARAMS| == 28
    ensures |AUTO_GOMEMLIMIT| == 22 && |GOMEMLIMIT_RATIO| == 21 && |STORAGE_ENDPOINT| == 25
    ensures HOST_NETWORK_KSA[0] != POD_UID[0]
  {
  }

  /** Each setting has one name. */
  lemma SettingNames(flag: string, s: Setting)
    ensures SettingOf(flag) == Some(s) <==> flag == NameOf(s)
  {
    NameLengths();
    hide IDENTITY_PROVIDER, IDENTITY_POOL, HOST_NETWORK_KSA, BUCKET_ACCESS_CHECK, POD_NAMESPACE,
         SERVICE_ACCOUNT_NAME, POD_NAME, POD_UID, PROFILER_FOR_SIDECAR, MEDIUM_FLAG, NUMA_NODE,
         KERNEL_PARAMS, AUTO_GOMEMLIMIT, GOMEMLIMIT_RATIO, STORAGE_ENDPOINT;
  }

  /** `ratio`: the value parses as a number in (0, 1]. */
  predicate Accepts(s: Setting, value: string, ratio: string -> bool) {
    if s == NumaNode then Atoi(value).Some? else if s == GoMemLimitRatio then ratio(value) else true
  }

  /** Only the node must be a number and the ratio one in (0, 1]. */
  lemma AcceptsIff(s: Setting, value: string, ratio: string -> bool)
    ensures s == NumaNode ==> (Accepts(s, value, ratio) <==> exists n :: Spells(value, n) && -MAX_INT64 - 1 <= n <= MAX_INT64)
    ensures s == GoMemLimitRatio ==> (Accepts(s, value, ratio) <==> ratio(value))
    ensures s != NumaNode && s != GoMemLimitRatio ==> Accepts(s, value, ratio)
  {
    hide Atoi, Spells;
    if Atoi(value).Some? { AtoiSpells(value, Atoi(value).value); }
    if n :| Spells(value, n) && -MAX_INT64 - 1 <= n <= MAX_INT64 { AtoiSpells(value, n); }
  }

  // ----- Reading one option -----

  datatype Arg = Config(key: string, value: string) | Flag(key: string, value: string)

  predicate Contains(s: string, t: string) {
    t <= s || (s != "" && Contains(s[1..], t))
  }

  /** A config file flag contains ':' but neither '=' nor "https"; its value follows the last
      ':', except that a custom endpoint keeps its own colons. */
  function Read(arg: string): Arg {
    if '=' !in arg && ':' in arg && !Contains(arg, "https") then
      if CUSTOM_ENDPOINT + ":" <= arg then Config(CUSTOM_ENDPOINT, arg[|CUSTOM_ENDPOINT| + 1..])
      else
        var i := LastIndexOf(arg, ':');
        Config(arg[..i], arg[i + 1..])
    else
      var i := IndexOf(arg, '=');
      if i < 0 then Flag(arg, "") else Flag(arg[..i], arg[i + 1..])
  }

  lemma {:induction false} ContainsIff(s: string, t: string)
    ensures Contains(s, t) <==> exists i :: 0 <= i <= |s| && t <= s[i..]
    decreases |s|
  {
    if t <= s {
      assert t <= s[0..];
    } else if s != "" {
      ContainsIff(s[1..], t);
      if i :| 0 <= i <= |s| && t <= s[i..] {
        assert i > 0 ==> s[i..] == s[1..][i - 1..];
      }
      if i :| 0 <= i <= |s[1..]| && t <= s[1..][i..] {
        assert s[1..][i..] == s[i + 1..];
      }
    }
  }

  /** "key:value", the value without ':', is a config file option. */
  lemma ReadConfig(key: string, value: string)
    requires ':' !in value && '=' !in key && '=' !in value && !Contains(key + ":" + value, "https")
    requires !(CUSTOM_ENDPOINT + ":" <= key + ":" + value)
    ensures Read(key + ":" + value) == Config(key, value)
  {
    var arg := key + ":" + value;
    assert arg[|key|] == ':' && arg[..|key|] == key && arg[|key| + 1..] == value;
    assert forall k :: |key| < k < |arg| ==> arg[k] == value[k - |key| - 1];
    assert LastIndexOf(arg, ':') == |key|;
    hide Contains, CUSTOM_ENDPOINT;
  }

  /** The custom endpoint keeps the colons of its value. */
  lemma ReadEndpoint(value: string)
    requires '=' !in value && !Contains(CUSTOM_ENDPOINT + ":" + value, "https")
    ensures Read(CUSTOM_ENDPOINT + ":" + value) == Config("gcs-connection:custom-endpoint", value)
  {
    var arg := CUSTOM_ENDPOINT + ":" + value;
    assert '=' !in CUSTOM_ENDPOINT;
    hide Contains, CUSTOM_ENDPOINT;
    assert arg[|CUSTOM_ENDPOINT|] == ':' && CUSTOM_ENDPOINT + ":" <= arg && arg[|CUSTOM_ENDPOINT| + 1..] == value;
    EndpointName();
  }

  lemma EndpointName()
    ensures CUSTOM_ENDPOINT == "gcs-connection:custom-endpoint"
  {
  }

  /** Without '=', and without ':' or with "https", the whole option is a flag without a value. */
  lemma ReadBare(arg: string)
    requires '=' !in arg && (':' !in arg || Contains(arg, "https"))
    ensures Read(arg) == Flag(arg, "")
  {
    hide Contains;
  }

  function ReadAll(args: seq<string>): seq<Arg> {
    seq(|args|, i requires 0 <= i < |args| => Read(args[i]))
  }

  // ----- What a list of options asks for -----

  function LastFlag(xs: seq<Arg>, key: string): Option<string> {
    if xs == [] then None
    else
      var a := xs[|xs| - 1];
      if a.Flag? && a.key == key then Some(a.value) else LastFlag(xs[..|xs| - 1], key)
  }

  function LastConfig(xs: seq<Arg>, key: string): Option<string> {
    if xs == [] then None
    else
      var a := xs[|xs| - 1];
      if a.Config? && a.key == key then Some(a.value) else LastConfig(xs[..|xs| - 1], key)
  }

  /** The last acceptable value of a setting. */
  function LastSetting(xs: seq<Arg>, s: Setting, ratio: string -> bool): Option<string> {
    if xs == [] then None
    else
      var a := xs[|xs| - 1];
      if a.Flag? && !Disallowed(a.key) && SettingOf(a.key) == Some(s) && Accepts(s, a.value, ratio) then Some(a.value)
      else LastSetting(xs[..|xs| - 1], s, ratio)
  }

  /** The nonempty values of "o", in order. */
  function OValues(xs: seq<Arg>): seq<string> {
    if xs == [] then []
    else
      var a := xs[|xs| - 1];
      OValues(xs[..|xs| - 1]) + if a.Flag? && a.key == O && a.value != "" then [a.value] else []
  }

  predicate MetricsOff(xs: seq<Arg>) {
    exists i :: 0 <= i < |xs| && xs[i] == Config(DISABLE_METRICS, "true")
  }

  /** Some file cache size other than "0" is given. */
  predicate CacheOn(xs: seq<Arg>) {
    exists i :: 0 <= i < |xs| && xs[i].Config? && xs[i].key == FILE_CACHE_SIZE && xs[i].value != "0"
  }

  // ----- One more option -----

  lemma Snoc(xs: seq<Arg>, a: Arg, key: string)
    ensures LastFlag(xs + [a], key) == if a.Flag? && a.key == key then Some(a.value) else LastFlag(xs, key)
    ensures LastConfig(xs + [a], key) == if a.Config? && a.key == key then Some(a.value) else LastConfig(xs, key)
    ensures OValues(xs + [a]) == OValues(xs) + if a.Flag? && a.key == O && a.value != "" then [a.value] else []
    ensures MetricsOff(xs + [a]) <==> MetricsOff(xs) || a == Config(DISABLE_METRICS, "true")
    ensures CacheOn(xs + [a]) <==> CacheOn(xs) || (a.Config? && a.key == FILE_CACHE_SIZE && a.value != "0")
  {
    hide O, DISABLE_METRICS, FILE_CACHE_SIZE;
    var ys := xs + [a];
    assert ys[..|ys| - 1] == xs && ys[|ys| - 1] == a;
    assert forall i :: 0 <= i < |xs| ==> ys[i] == xs[i];
  }

  lemma SnocSetting(xs: seq<Arg>, a: Arg, s: Setting, ratio: string -> bool)
    ensures LastSetting(xs + [a], s, ratio)
            == if a.Flag? && !Disallowed(a.key) && SettingOf(a.key) == Some(s) && Accepts(s, a.value, ratio) then Some(a.value)
               else LastSetting(xs, s, ratio)
  {
    hide Disallowed, SettingOf, Accepts;
    var ys := xs + [a];
    assert ys[..|ys| - 1] == xs && ys[|ys| - 1] == a;
  }

  lemma {:induction false} JoinSnoc(vs: seq<string>, v: string, sep: char)
    ensures Join(vs + [v], sep) == if vs == [] then v else Join(vs, sep) + [sep] + v
    decreases |vs|
  {
    if vs == [] {
      assert vs + [v] == [v];
    } else {
      JoinSnoc(vs[1..], v, sep);
      assert (vs + [v])[1..] == vs[1..] + [v];
      assert |vs| == 1 ==> vs[1..] == [];
    }
  }

  lemma {:induction false} OValuesNonempty(xs: seq<Arg>, i: nat)
    requires i < |OValues(xs)|
    ensures OValues(xs)[i] != ""
    decreases |xs|
  {
    hide O;
    if i < |OValues(xs[..|xs| - 1])| { OValuesNonempty(xs[..|xs| - 1], i); }
  }

  lemma JoinNonempty(vs: seq<string>)
    requires vs != [] && vs[0] != ""
    ensures Join(vs, ',') != ""
  {
  }

  // ----- The flags and config flags that the options determine -----

  function Get(m: map<string, string>, k: string): Option<string> {
    if k in m then Some(m[k]) else None
  }

  function Or(a: Option<string>, b: Option<string>): Option<string> {
    if a.Some? then a else b
  }

  /** Flags that the options set freely. */
  predicate Free(k: string) {
    !Disallowed(k) && SettingOf(k).None? && k != APP_NAME
  }

  datatype Driver = Driver(bufferDir: string, configFile: string, cacheDir: string, tempDir: string, volumeName: string, shared: bool, port: nat)

  function Defaults(d: Driver): map<string, string> {
    map[APP_NAME := DRIVER_APP_NAME, TEMP_DIR := d.bufferDir + "/temp-dir", CONFIG_FILE := d.configFile, FOREGROUND := "",
        "uid" := "0", "gid" := "0", PROMETHEUS_PORT := Itoa(d.port)]
  }

  /** The driver's own flags hold, whatever the options. */
  ghost predicate OwnedOk(flags: map<string, string>, d: Driver, xs: seq<Arg>) {
    && Get(flags, TEMP_DIR) == Some(d.bufferDir + "/temp-dir")
    && Get(flags, CONFIG_FILE) == Some(d.configFile)
    && Get(flags, FOREGROUND) == Some("")
    && Get(flags, PROMETHEUS_PORT) == Some(if MetricsOff(xs) then "0" else Itoa(d.port))
  }

  ghost predicate OOk(flags: map<string, string>, d: Driver, xs: seq<Arg>) {
    Get(flags, O) == if d.shared && OValues(xs) != [] then Some(Join(OValues(xs), ',')) else None
  }

  ghost predicate AppNameOk(flags: map<string, string>, xs: seq<Arg>) {
    Get(flags, APP_NAME)
    == Some(if LastFlag(xs, APP_NAME).Some? then DRIVER_APP_NAME + "-" + LastFlag(xs, APP_NAME).value else DRIVER_APP_NAME)
  }

  ghost predicate FreeOk(flags: map<string, string>, d: Driver, xs: seq<Arg>) {
    forall k :: Free(k) ==> Get(flags, k) == Or(LastFlag(xs, k), Get(Defaults(d), k))
  }

  /** Flags that never reach the command line: settings, and what the driver keeps to itself. */
  predicate Barred(k: string) {
    || SettingOf(k).Some?
    || k in {"log-file", "log-format", "cache-dir", "key-file", "token-url", "reuse-token-from-url", "kernel-params-file",
             "file-system:kernel-params-file"}
  }

  ghost predicate BarredOk(flags: map<string, string>) {
    forall k :: Barred(k) ==> k !in flags
  }

  lemma BarredNames()
    ensures !Barred(O) && !Barred(APP_NAME) && !Barred(PROMETHEUS_PORT)
    ensures forall k :: Barred(k) ==> !Free(k)
  {
  }

  /** Config flags that never reach the config file. */
  predicate BarredConfig(k: string) {
    k in {"log-file", "log-format", "o", "temp-dir", "config-file", "foreground", "key-file", "token-url", "reuse-token-from-url",
          "prometheus-port", "kernel-params-file", "disable-metrics-for-gke"}
  }

  lemma BarredConfigNames()
    ensures !BarredConfig(CACHE_DIR) && !BarredConfig(KERNEL_PARAMS_FILE)
    ensures forall k :: BarredConfig(k) ==> !FreeConfig(k)
  {
  }

  const CONFIG_DEFAULTS := map[LOG_FILE := "/dev/fd/1", LOG_FORMAT := "json", CACHE_DIR := ""]

  predicate FreeConfig(k: string) {
    !Disallowed(k) && k != DISABLE_METRICS
  }

  ghost predicate ConfigsOk(configs: map<string, string>, d: Driver, xs: seq<Arg>) {
    && Get(configs, CACHE_DIR) == Some(if CacheOn(xs) then d.cacheDir else "")
    && Get(configs, KERNEL_PARAMS_FILE) == None
    && (forall k :: BarredConfig(k) ==> k !in configs)
    && forall k :: FreeConfig(k) ==> Get(configs, k) == Or(LastConfig(xs, k), Get(CONFIG_DEFAULTS, k))
  }

  ghost predicate SettingsOk(settings: map<Setting, string>, xs: seq<Arg>, ratio: string -> bool) {
    forall s :: (if s in settings then Some(settings[s]) else None) == LastSetting(xs, s, ratio)
  }

  ghost predicate FlagsOk(flags: map<string, string>, d: Driver, xs: seq<Arg>) {
    OwnedOk(flags, d, xs) && OOk(flags, d, xs) && AppNameOk(flags, xs) && FreeOk(flags, d, xs) && BarredOk(flags)
  }

  /** What the proofs need to know about the flag names. */
  lemma FlagNames()
    ensures Disallowed(TEMP_DIR) && Disallowed(CONFIG_FILE) && Disallowed(FOREGROUND) && Disallowed(PROMETHEUS_PORT) && Disallowed(O)
    ensures !Disallowed(APP_NAME) && SettingOf(APP_NAME).None?
    ensures O != TEMP_DIR && O != CONFIG_FILE && O != FOREGROUND && O != PROMETHEUS_PORT
    ensures PROMETHEUS_PORT != TEMP_DIR && PROMETHEUS_PORT != CONFIG_FILE && PROMETHEUS_PORT != FOREGROUND
  {
  }

  lemma ConfigNames()
    ensures Disallowed(CACHE_DIR) && Disallowed(KERNEL_PARAMS_FILE) && CACHE_DIR != KERNEL_PARAMS_FILE
    ensures !Disallowed(FILE_CACHE_SIZE) && FILE_CACHE_SIZE != DISABLE_METRICS
  {
  }

  /** One config file option. */
  method ProcessConfig(flags: map<string, string>, configs: map<string, string>, key: string, value: string,
                       ghost d: Driver, cacheDir: string, ghost xs: seq<Arg>)
    returns (flags': map<string, string>, configs': map<string, string>)
    requires FlagsOk(flags, d, xs) && ConfigsOk(configs, d, xs) && cacheDir == d.cacheDir
    ensures FlagsOk(flags', d, xs + [Config(key, value)]) && ConfigsOk(configs', d, xs + [Config(key, value)])
  {
    ghost var a := Config(key, value);
    FlagsAfterConfig(flags, d, xs, a);
    flags', configs' := flags, configs;
    if key == DISABLE_METRICS {
      if value == "true" {
        flags' := flags'[PROMETHEUS_PORT := "0"];
      }
      ConfigsSame(configs, d, xs, a);
      return;
    }
    ConfigsAfter(configs, d, xs, a);
    hide *;
    if !Disallowed(key) {
      configs' := configs'[key := value];
    }
    if key == FILE_CACHE_SIZE && value != "0" {
      configs' := configs'[CACHE_DIR := cacheDir];
    }
  }

  lemma FlagsAfterConfig(flags: map<string, string>, d: Driver, xs: seq<Arg>, a: Arg)
    requires FlagsOk(flags, d, xs) && a.Config?
    ensures FlagsOk(if a == Config(DISABLE_METRICS, "true") then flags[PROMETHEUS_PORT := "0"] else flags, d, xs + [a])
  {
    FlagNames();
    BarredNames();
    hide Barred, Disallowed, SettingOf, TEMP_DIR, CONFIG_FILE, FOREGROUND, PROMETHEUS_PORT, O, APP_NAME, DISABLE_METRICS,
         Defaults, Itoa, Join, LastFlag, OValues, MetricsOff, CacheOn;
    var flags' := if a == Config(DISABLE_METRICS, "true") then flags[PROMETHEUS_PORT := "0"] else flags;
    OwnedAfterConfig(flags, d, xs, a);
    Snoc(xs, a, APP_NAME);
    assert OValues(xs + [a]) == OValues(xs);
    forall k | Free(k)
      ensures Get(flags', k) == Or(LastFlag(xs + [a], k), Get(Defaults(d), k))
    {
      Snoc(xs, a, k);
    }
  }

  lemma OwnedAfterConfig(flags: map<string, string>, d: Driver, xs: seq<Arg>, a: Arg)
    requires OwnedOk(flags, d, xs) && a.Config?
    ensures OwnedOk(if a == Config(DISABLE_METRICS, "true") then flags[PROMETHEUS_PORT := "0"] else flags, d, xs + [a])
  {
    FlagNames();
    Snoc(xs, a, O);
    hide TEMP_DIR, CONFIG_FILE, FOREGROUND, PROMETHEUS_PORT, DISABLE_METRICS, Itoa, MetricsOff, Disallowed;
  }

  lemma ConfigsSame(configs: map<string, string>, d: Driver, xs: seq<Arg>, a: Arg)
    requires ConfigsOk(configs, d, xs) && (a.Flag? || a.key == DISABLE_METRICS)
    ensures ConfigsOk(configs, d, xs + [a])
  {
    ConfigNames();
    BarredConfigNames();
    Snoc(xs, a, FILE_CACHE_SIZE);
    forall k | k != DISABLE_METRICS
      ensures LastConfig(xs + [a], k) == LastConfig(xs, k)
    {
      Snoc(xs, a, k);
    }
    hide BarredConfig, Disallowed, CACHE_DIR, KERNEL_PARAMS_FILE, DISABLE_METRICS, FILE_CACHE_SIZE, CONFIG_DEFAULTS, LastConfig,
         CacheOn;
  }

  lemma ConfigsAfter(configs: map<string, string>, d: Driver, xs: seq<Arg>, a: Arg)
    requires ConfigsOk(configs, d, xs) && a.Config? && a.key != DISABLE_METRICS
    ensures var set1 := if Disallowed(a.key) then configs else configs[a.key := a.value];
            ConfigsOk(if a.key == FILE_CACHE_SIZE && a.value != "0" then set1[CACHE_DIR := d.cacheDir] else set1, d, xs + [a])
  {
    ConfigNames();
    BarredConfigNames();
    Snoc(xs, a, FILE_CACHE_SIZE);
    forall k
      ensures LastConfig(xs + [a], k) == if a.key == k then Some(a.value) else LastConfig(xs, k)
    {
      Snoc(xs, a, k);
    }
    hide BarredConfig, Disallowed, CACHE_DIR, KERNEL_PARAMS_FILE, DISABLE_METRICS, FILE_CACHE_SIZE, CONFIG_DEFAULTS, LastConfig,
         CacheOn;
  }

  /** A disallowed flag that is not "o" of a shared mount, or a setting, changes no flag. */
  lemma FlagsSame(flags: map<string, string>, d: Driver, xs: seq<Arg>, a: Arg)
    requires FlagsOk(flags, d, xs) && a.Flag?
    requires if Disallowed(a.key) then a.key != O || !d.shared || a.value == "" else SettingOf(a.key).Some?
    ensures FlagsOk(flags, d, xs + [a])
  {
    FlagNames();
    BarredNames();
    hide Barred, Disallowed, SettingOf, TEMP_DIR, CONFIG_FILE, FOREGROUND, PROMETHEUS_PORT, O, APP_NAME, DISABLE_METRICS,
         Defaults, Itoa, Join, LastFlag, OValues, MetricsOff, CacheOn;
    Snoc(xs, a, APP_NAME);
    assert d.shared ==> OValues(xs + [a]) == OValues(xs);
    forall k | Free(k)
      ensures Get(flags, k) == Or(LastFlag(xs + [a], k), Get(Defaults(d), k))
    {
      Snoc(xs, a, k);
    }
  }

  lemma FlagsAfterO(flags: map<string, string>, d: Driver, xs: seq<Arg>, value: string)
    requires FlagsOk(flags, d, xs) && d.shared && value != ""
    ensures Get(flags, O) != Some("")
    ensures FlagsOk(flags[O := if O in flags then flags[O] + "," + value else value], d, xs + [Flag(O, value)])
  {
    var a := Flag(O, value);
    var vs := OValues(xs);
    FlagNames();
    BarredNames();
    hide Barred, Disallowed, SettingOf, TEMP_DIR, CONFIG_FILE, FOREGROUND, PROMETHEUS_PORT, O, APP_NAME, DISABLE_METRICS,
         Defaults, Itoa, LastFlag, OValues, MetricsOff, CacheOn;
    if vs != [] {
      OValuesNonempty(xs, 0);
      JoinNonempty(vs);
    }
    JoinSnoc(vs, value, ',');
    hide Join;
    Snoc(xs, a, APP_NAME);
    var flags' := flags[O := if O in flags then flags[O] + "," + value else value];
    forall k | Free(k)
      ensures Get(flags', k) == Or(LastFlag(xs + [a], k), Get(Defaults(d), k))
    {
      Snoc(xs, a, k);
    }
  }

  lemma FlagsAfterAppName(flags: map<string, string>, d: Driver, xs: seq<Arg>, value: string)
    requires FlagsOk(flags, d, xs)
    ensures FlagsOk(flags[APP_NAME := DRIVER_APP_NAME + "-" + value], d, xs + [Flag(APP_NAME, value)])
  {
    var a := Flag(APP_NAME, value);
    FlagNames();
    BarredNames();
    hide Barred, Disallowed, SettingOf, TEMP_DIR, CONFIG_FILE, FOREGROUND, PROMETHEUS_PORT, O, APP_NAME, DISABLE_METRICS,
         Defaults, Itoa, Join, LastFlag, OValues, MetricsOff, CacheOn, DRIVER_APP_NAME;
    Snoc(xs, a, APP_NAME);
    assert OValues(xs + [a]) == OValues(xs);
    var flags' := flags[APP_NAME := DRIVER_APP_NAME + "-" + value];
    forall k | Free(k)
      ensures Get(flags', k) == Or(LastFlag(xs + [a], k), Get(Defaults(d), k))
    {
      Snoc(xs, a, k);
    }
  }

  lemma FlagsAfterFree(flags: map<string, string>, d: Driver, xs: seq<Arg>, a: Arg)
    requires FlagsOk(flags, d, xs) && a.Flag? && Free(a.key)
    ensures FlagsOk(flags[a.key := a.value], d, xs + [a])
  {
    FlagNames();
    BarredNames();
    hide Barred, Disallowed, SettingOf, TEMP_DIR, CONFIG_FILE, FOREGROUND, PROMETHEUS_PORT, O, APP_NAME, DISABLE_METRICS,
         Defaults, Itoa, Join, LastFlag, OValues, MetricsOff, CacheOn, DRIVER_APP_NAME;
    Snoc(xs, a, APP_NAME);
    assert OValues(xs + [a]) == OValues(xs);
    var flags' := flags[a.key := a.value];
    forall k | Free(k)
      ensures Get(flags', k) == Or(LastFlag(xs + [a], k), Get(Defaults(d), k))
    {
      Snoc(xs, a, k);
    }
  }

  lemma SettingsAfter(settings: map<Setting, string>, xs: seq<Arg>, a: Arg, ratio: string -> bool)
    requires SettingsOk(settings, xs, ratio)
    ensures var s := SettingOf(a.key);
            SettingsOk(if a.Flag? && !Disallowed(a.key) && s.Some? && Accepts(s.value, a.value, ratio) then settings[s.value := a.value] else settings,
                       xs + [a], ratio)
  {
    hide Disallowed, SettingOf, Accepts, LastSetting;
    forall s
      ensures LastSetting(xs + [a], s, ratio)
              == if a.Flag? && !Disallowed(a.key) && SettingOf(a.key) == Some(s) && Accepts(s, a.value, ratio) then Some(a.value)
                 else LastSetting(xs, s, ratio)
    {
      SnocSetting(xs, a, s, ratio);
    }
  }

  /** One command line option. */
  method ProcessFlag(flags: map<string, string>, settings: map<Setting, string>, flag: string, value: string, shared: bool,
                     ratio: string -> bool, ghost d: Driver, ghost xs: seq<Arg>)
    returns (flags': map<string, string>, settings': map<Setting, string>)
    requires FlagsOk(flags, d, xs) && SettingsOk(settings, xs, ratio) && shared == d.shared
    ensures FlagsOk(flags', d, xs + [Flag(flag, value)]) && SettingsOk(settings', xs + [Flag(flag, value)], ratio)
  {
    ghost var a := Flag(flag, value);
    SettingsAfter(settings, xs, a, ratio);
    FlagNames();
    hide FlagsOk, SettingsOk, Accepts, Disallowed, SettingOf, O, APP_NAME, DRIVER_APP_NAME;
    flags', settings' := flags, settings;
    if Disallowed(flag) && !(flag == O && shared) {
      FlagsSame(flags, d, xs, a);
      return;
    }
    var setting := SettingOf(flag);
    if !Disallowed(flag) && setting.Some? {
      FlagsSame(flags, d, xs, a);
      if Accepts(setting.value, value, ratio) {
        settings' := settings'[setting.value := value];
      }
      return;
    }
    if flag == O {
      if value != "" {
        FlagsAfterO(flags, d, xs, value);
        flags' := flags'[O := if O in flags' && flags'[O] != "" then flags'[O] + "," + value else value];
      } else {
        FlagsSame(flags, d, xs, a);
      }
    } else if flag == APP_NAME {
      FlagsAfterAppName(flags, d, xs, value);
      flags' := flags'[flag := DRIVER_APP_NAME + "-" + value];
    } else {
      FlagsAfterFree(flags, d, xs, a);
      flags' := flags'[flag := value];
    }
  }

  // ----- After the loop -----

  const RAM_DISK := "/gcsfuse-file-cache-ram-disk"
  const EPHEMERAL_DISK := "/gcsfuse-file-cache-ephemeral-disk"

  /** filepath.Join(base, ".volumes", volume) for a volume name that needs no cleaning. */
  function VolumeDir(base: string, volume: string): string {
    if base == "" then ".volumes/" + volume else base + "/.volumes/" + volume
  }

  function MediumDir(medium: string): string {
    if medium == "ram" then RAM_DISK else if medium == "lssd" then EPHEMERAL_DISK else ""
  }

  /** The medium's directory when a medium is given, else the cache directory when some file
      cache size is not "0", else empty. */
  function CacheDirFor(d: Driver, xs: seq<Arg>, medium: string): string {
    if medium != "" then if d.shared then MediumDir(medium) else VolumeDir(MediumDir(medium), d.volumeName)
    else if CacheOn(xs) then d.cacheDir else ""
  }

  function ValueOf(xs: seq<Arg>, s: Setting, ratio: string -> bool): string {
    if LastSetting(xs, s, ratio).Some? then LastSetting(xs, s, ratio).value else ""
  }

  /** Profiling is asked for and not switched off by the gcsfuse flag. */
  predicate Profiled(xs: seq<Arg>, ratio: string -> bool) {
    && ValueOf(xs, CloudProfilerForSidecar, ratio) == "true"
    && !(LastFlag(xs, CLOUD_PROFILER).Some? && ParseBool(LastFlag(xs, CLOUD_PROFILER).value) == Some(false))
  }

  function ServiceVersion(podName: string, podUID: string): string {
    if podName == "" && podUID == "" then "" else podName + "_" + podUID
  }

  /** What a flag that the options may set has without them. */
  function DefaultFlag(k: string): Option<string> {
    if k == "uid" || k == "gid" then Some("0") else None
  }

  function DefaultConfig(k: string): Option<string> {
    if k == "logging:file-path" then Some("/dev/fd/1") else if k == "logging:format" then Some("json") else None
  }

  lemma DefaultsAre(d: Driver)
    ensures forall k :: Free(k) ==> Get(Defaults(d), k) == DefaultFlag(k)
  {
  }

  lemma ConfigDefaultsAre()
    ensures forall k :: FreeConfig(k) ==> Get(CONFIG_DEFAULTS, k) == DefaultConfig(k)
  {
  }

  /** The flags and config flags that gcsfuse is started with. */
  ghost predicate Prepared(flags: map<string, string>, configs: map<string, string>, d: Driver, xs: seq<Arg>, ratio: string -> bool) {
    PreparedFlags(flags, d, xs, ratio) && PreparedConfigs(configs, d, xs, ratio)
  }

  ghost predicate PreparedFlags(flags: map<string, string>, d: Driver, xs: seq<Arg>, ratio: string -> bool) {
    && OwnedOk(flags, d, xs) && OOk(flags, d, xs) && AppNameOk(flags, xs)
    && BarredOk(flags)
    && (forall k :: Free(k) && !(Profiled(xs, ratio) && (k == CLOUD_PROFILER || k == CLOUD_PROFILER_LABEL)) ==>
          Get(flags, k) == Or(LastFlag(xs, k), DefaultFlag(k)))
    && (Profiled(xs, ratio) ==>
          var name, uid := ValueOf(xs, PodName, ratio), ValueOf(xs, PodUID, ratio);
          && Get(flags, CLOUD_PROFILER) == Some("")
          && Get(flags, CLOUD_PROFILER_LABEL) == Some(if name == "" && uid == "" then "" else name + "_" + uid))
  }

  ghost predicate PreparedConfigs(configs: map<string, string>, d: Driver, xs: seq<Arg>, ratio: string -> bool) {
    && Get(configs, CACHE_DIR) == Some(CacheDirFor(d, xs, ValueOf(xs, FileCacheMedium, ratio)))
    && Get(configs, KERNEL_PARAMS_FILE)
       == (if ValueOf(xs, KernelParams, ratio) == "true" then Some(d.tempDir + "/kernel-params.json") else None)
    && (forall k :: BarredConfig(k) ==> k !in configs)
    && (forall k :: FreeConfig(k) ==> Get(configs, k) == Or(LastConfig(xs, k), DefaultConfig(k)))
  }

  lemma ProfilerNames()
    ensures Free(CLOUD_PROFILER) && Free(CLOUD_PROFILER_LABEL) && CLOUD_PROFILER != CLOUD_PROFILER_LABEL
  {
  }

  lemma NoDefaultProfiler(d: Driver)
    ensures Get(Defaults(d), CLOUD_PROFILER).None?
  {
  }

  class Ports {
    var next: nat
  }

  class MountConfig {
    const bufferDir: string
    const configFile: string
    const tempDir: string
    const volumeName: string
    const sharedMountPoint: string
    var cacheDir: string
    var settings: map<Setting, string>
    var flagMap: map<string, string>
    var configFileFlagMap: map<string, string>

    function DriverOf(port: nat): Driver
      reads this
    {
      Driver(bufferDir, configFile, cacheDir, tempDir, volumeName, sharedMountPoint != "", port)
    }

    function Value(s: Setting): string
      reads this`settings
    {
      if s in settings then settings[s] else ""
    }

    /** Every instance gets its own port; whatever the options, the driver's flags hold. */
    method PrepareMountArgs(options: seq<string>, ratio: string -> bool, ports: Ports)
      modifies this, ports
      ensures ports.next == old(ports.next) + 1
      ensures Prepared(flagMap, configFileFlagMap, old(DriverOf(ports.next)), ReadAll(options), ratio)
      ensures SettingsOk(settings, ReadAll(options), ratio)
      ensures cacheDir == if Value(FileCacheMedium) == "" then old(cacheDir) else configFileFlagMap[CACHE_DIR]
    {
      hide FlagsOk, ConfigsOk, SettingsOk, ReadAll, PreparedFlags, PreparedConfigs;
      ghost var d := DriverOf(ports.next);
      ghost var xs := ReadAll(options);
      ProcessOptions(options, ratio, ports.next);
      ports.next := ports.next + 1;
      FinishConfigs(d, xs, ratio);
      FinishFlags(d, xs, ratio);
    }

    /** The loop over the options. */
    method ProcessOptions(options: seq<string>, ratio: string -> bool, port: nat)
      modifies this`settings, this`flagMap, this`configFileFlagMap
      ensures var d, xs := DriverOf(port), ReadAll(options);
              FlagsOk(flagMap, d, xs) && ConfigsOk(configFileFlagMap, d, xs) && SettingsOk(settings, xs, ratio)
    {
      ghost var d := DriverOf(port);
      flagMap, configFileFlagMap, settings := Defaults(DriverOf(port)), CONFIG_DEFAULTS, map[];
      StartOk(d, ratio);
      hide FlagsOk, ConfigsOk, SettingsOk, Read, ReadAll, Defaults, CONFIG_DEFAULTS, Disallowed, SettingOf, Accepts, DISABLE_METRICS;
      NothingRead(options);
      ghost var xs := [];
      var i := 0;
      while i < |options|
        invariant 0 <= i <= |options| && xs == ReadAll(options[..i]) && DriverOf(port) == d
        invariant FlagsOk(flagMap, d, xs) && ConfigsOk(configFileFlagMap, d, xs) && SettingsOk(settings, xs, ratio)
      {
        var arg := Read(options[i]);
        if arg.Config? {
          SettingsAfter(settings, xs, arg, ratio);
          var flags, configs := ProcessConfig(flagMap, configFileFlagMap, arg.key, arg.value, d, cacheDir, xs);
          flagMap, configFileFlagMap := flags, configs;
        } else {
          ConfigsSame(configFileFlagMap, d, xs, arg);
          var flags, settings' := ProcessFlag(flagMap, settings, arg.key, arg.value, sharedMountPoint != "", ratio, d, xs);
          flagMap, settings := flags, settings';
        }
        ReadOneMore(options, i);
        xs := xs + [arg];
        i := i + 1;
      }
      assert options[..i] == options;
    }

    /** The cache medium and the kernel params file. */
    method FinishConfigs(ghost d: Driver, ghost xs: seq<Arg>, ghost ratio: string -> bool)
      requires d == DriverOf(d.port) && ConfigsOk(configFileFlagMap, d, xs) && SettingsOk(settings, xs, ratio)
      modifies this`configFileFlagMap, this`cacheDir
      ensures PreparedConfigs(configFileFlagMap, d, xs, ratio)
      ensures CACHE_DIR in configFileFlagMap
      ensures cacheDir == if Value(FileCacheMedium) == "" then old(cacheDir) else configFileFlagMap[CACHE_DIR]
    {
      hide *;
      SettingValue(this, FileCacheMedium, xs, ratio);
      SettingValue(this, KernelParams, xs, ratio);
      var medium, kernelParams := Value(FileCacheMedium), Value(KernelParams);
      ConfigsFinal(configFileFlagMap, d, xs, ratio);
      DriverIs(this, d.port);
      HasCacheDir(configFileFlagMap, d, xs);
      if medium != "" {
        var dir := MediumDir(medium);
        if sharedMountPoint == "" {
          dir := VolumeDir(dir, volumeName);
        }
        configFileFlagMap := configFileFlagMap[CACHE_DIR := dir];
        cacheDir := dir;
      }
      if kernelParams == "true" {
        configFileFlagMap := configFileFlagMap[KERNEL_PARAMS_FILE := tempDir + "/kernel-params.json"];
      }
    }

    /** The profiler's flags. */
    method FinishFlags(ghost d: Driver, ghost xs: seq<Arg>, ghost ratio: string -> bool)
      requires FlagsOk(flagMap, d, xs) && SettingsOk(settings, xs, ratio)
      modifies this`flagMap
      ensures PreparedFlags(flagMap, d, xs, ratio)
    {
      hide *;
      SettingValue(this, CloudProfilerForSidecar, xs, ratio);
      SettingValue(this, PodName, xs, ratio);
      SettingValue(this, PodUID, xs, ratio);
      FlagsFinal(flagMap, d, xs, ratio);
      var version := ServiceVersion(Value(PodName), Value(PodUID));
      if Value(CloudProfilerForSidecar) == "true" {
        var enable := !(CLOUD_PROFILER in flagMap && ParseBool(flagMap[CLOUD_PROFILER]) == Some(false));
        if enable {
          flagMap := flagMap[CLOUD_PROFILER := ""][CLOUD_PROFILER_LABEL := version];
        }
      }
    }
  }

  lemma SettingValue(mc: MountConfig, s: Setting, xs: seq<Arg>, ratio: string -> bool)
    requires SettingsOk(mc.settings, xs, ratio)
    ensures mc.Value(s) == ValueOf(xs, s, ratio)
  {
    hide LastSetting;
  }

  lemma HasCacheDir(configs: map<string, string>, d: Driver, xs: seq<Arg>)
    requires ConfigsOk(configs, d, xs)
    ensures CACHE_DIR in configs && CACHE_DIR != KERNEL_PARAMS_FILE
  {
    ConfigNames();
  }

  lemma DriverIs(mc: MountConfig, port: nat)
    ensures var d := mc.DriverOf(port);
            d.shared == (mc.sharedMountPoint != "") && d.volumeName == mc.volumeName && d.tempDir == mc.tempDir
  {
  }

  lemma ConfigsFinal(configs: map<string, string>, d: Driver, xs: seq<Arg>, ratio: string -> bool)
    requires ConfigsOk(configs, d, xs)
    ensures var medium := ValueOf(xs, FileCacheMedium, ratio);
            var dir := if d.shared then MediumDir(medium) else VolumeDir(MediumDir(medium), d.volumeName);
            var configs1 := if medium != "" then configs[CACHE_DIR := dir] else configs;
            PreparedConfigs(if ValueOf(xs, KernelParams, ratio) == "true" then configs1[KERNEL_PARAMS_FILE := d.tempDir + "/kernel-params.json"] else configs1,
                            d, xs, ratio)
  {
    ConfigNames();
    BarredConfigNames();
    ConfigDefaultsAre();
    hide BarredConfig, Disallowed, CACHE_DIR, KERNEL_PARAMS_FILE, DISABLE_METRICS, FILE_CACHE_SIZE, CONFIG_DEFAULTS, LastConfig,
         CacheOn, MediumDir, VolumeDir, ValueOf, DefaultConfig;
  }

  lemma FlagsFinal(flags: map<string, string>, d: Driver, xs: seq<Arg>, ratio: string -> bool)
    requires FlagsOk(flags, d, xs)
    ensures Profiled(xs, ratio) <==>
            ValueOf(xs, CloudProfilerForSidecar, ratio) == "true" && !(CLOUD_PROFILER in flags && ParseBool(flags[CLOUD_PROFILER]) == Some(false))
    ensures var version := ServiceVersion(ValueOf(xs, PodName, ratio), ValueOf(xs, PodUID, ratio));
            PreparedFlags(if Profiled(xs, ratio) then flags[CLOUD_PROFILER := ""][CLOUD_PROFILER_LABEL := version] else flags, d, xs, ratio)
  {
    FlagNames();
    ProfilerNames();
    NoDefaultProfiler(d);
    BarredNames();
    DefaultsAre(d);
    hide Barred, Disallowed, SettingOf, TEMP_DIR, CONFIG_FILE, FOREGROUND, PROMETHEUS_PORT, O, APP_NAME, DISABLE_METRICS,
         Defaults, DefaultFlag, Itoa, Join, LastFlag, OValues, MetricsOff, CacheOn, ParseBool, ValueOf, CLOUD_PROFILER,
         CLOUD_PROFILER_LABEL, DRIVER_APP_NAME;
  }

  lemma NothingRead(options: seq<string>)
    ensures ReadAll(options[..0]) == []
  {
  }

  lemma ReadOneMore(options: seq<string>, i: nat)
    requires i < |options|
    ensures ReadAll(options[..i + 1]) == ReadAll(options[..i]) + [Read(options[i])]
  {
    hide Read;
  }

  lemma StartOk(d: Driver, ratio: string -> bool)
    ensures FlagsOk(Defaults(d), d, []) && ConfigsOk(CONFIG_DEFAULTS, d, []) && SettingsOk(map[], [], ratio)
  {
    FlagsStart(d);
    ConfigsStart(d);
    hide *;
    NoSettings(ratio);
  }

  lemma NoSettings(ratio: string -> bool)
    ensures SettingsOk(map[], [], ratio)
  {
  }

  lemma FlagsStart(d: Driver)
    ensures FlagsOk(Defaults(d), d, [])
  {
    BarredStart(d);
    FlagNames();
    hide Barred, BarredOk, Disallowed, SettingOf, Itoa, Join;
    assert !MetricsOff([]);
  }

  lemma BarredStart(d: Driver)
    ensures BarredOk(Defaults(d))
  {
    OwnNames();
    IdNames();
    BarredNames();
    hide Barred, Itoa, APP_NAME, TEMP_DIR, CONFIG_FILE, FOREGROUND, PROMETHEUS_PORT;
  }

  lemma OwnNames()
    ensures !Barred(TEMP_DIR) && !Barred(CONFIG_FILE) && !Barred(FOREGROUND)
  {
  }

  lemma IdNames()
    ensures !Barred("uid") && !Barred("gid")
  {
  }

  lemma ConfigsStart(d: Driver)
    ensures ConfigsOk(CONFIG_DEFAULTS, d, [])
  {
    ConfigNames();
    assert !CacheOn([]);
    hide Disallowed, CacheOn;
  }

  // ----- Which directory the cache gets -----

  /** The directory of each medium, written out: one per volume in a sidecar. */
  lemma CacheDirs(d: Driver, xs: seq<Arg>)
    ensures CacheDirFor(d, xs, "ram") == "/gcsfuse-file-cache-ram-disk" + if d.shared then "" else "/.volumes/" + d.volumeName
    ensures CacheDirFor(d, xs, "lssd") == "/gcsfuse-file-cache-ephemeral-disk" + if d.shared then "" else "/.volumes/" + d.volumeName
    ensures CacheDirFor(d, xs, "") == if CacheOn(xs) then d.cacheDir else ""
  {
    hide CacheOn;
    var rest := "/.volumes/" + d.volumeName;
    assert RAM_DISK + "/.volumes/" + d.volumeName == RAM_DISK + rest;
    assert EPHEMERAL_DISK + "/.volumes/" + d.volumeName == EPHEMERAL_DISK + rest;
  }

  /** The directory of a known medium in this mount. */
  function KnownMediumDir(d: Driver, medium: string): string {
    if d.shared then MediumDir(medium) else VolumeDir(MediumDir(medium), d.volumeName)
  }

  /** Empty, the volume's cache directory, or the directory of a known medium. */
  predicate ProperCacheDir(d: Driver, dir: string) {
    dir == "" || dir == d.cacheDir || dir == KnownMediumDir(d, "ram") || dir == KnownMediumDir(d, "lssd")
  }

  /** The relative directory that an unknown medium stands for in a sidecar. */
  function StrayDir(d: Driver): string {
    VolumeDir("", d.volumeName)
  }

  lemma StrayDirIsRelative(d: Driver)
    requires !d.shared
    ensures StrayDir(d) != "" && StrayDir(d) != KnownMediumDir(d, "ram") && StrayDir(d) != KnownMediumDir(d, "lssd")
  {
    assert StrayDir(d)[0] == '.';
    assert KnownMediumDir(d, "ram")[0] == '/' && KnownMediumDir(d, "lssd")[0] == '/';
  }

  /** The cache directory is a proper one exactly when no medium or a known one is given, or
      the mount is shared; or when the volume's cache directory happens to be the stray one. */
  lemma CacheDirProperIff(configs: map<string, string>, d: Driver, xs: seq<Arg>, ratio: string -> bool)
    requires PreparedConfigs(configs, d, xs, ratio)
    ensures CACHE_DIR in configs
    ensures var medium := ValueOf(xs, FileCacheMedium, ratio);
            ProperCacheDir(d, configs[CACHE_DIR]) <==>
            medium == "" || medium == "ram" || medium == "lssd" || d.shared || d.cacheDir == StrayDir(d)
  {
    if !d.shared { StrayDirIsRelative(d); }
    var medium := ValueOf(xs, FileCacheMedium, ratio);
    assert configs[CACHE_DIR] == CacheDirFor(d, xs, medium);
    hide CACHE_DIR, ValueOf, VolumeDir, CacheOn, RAM_DISK, EPHEMERAL_DISK, Get, CONFIG_DEFAULTS;
  }

  lemma ReadAssigned(key: string, value: string)
    requires '=' !in key
    ensures Read(key + "=" + value) == Flag(key, value)
  {
    var arg := key + "=" + value;
    assert arg[..|key|] == key && arg[|key|] == '=' && arg[|key| + 1..] == value;
    IndexOfFirst(arg, '=', |key|);
  }

  lemma MediumFlagIsSetting()
    ensures '=' !in MEDIUM_FLAG && !Disallowed(MEDIUM_FLAG) && SettingOf(MEDIUM_FLAG) == Some(FileCacheMedium)
  {
  }

  /** A sidecar mount with an unknown medium gets a relative cache directory. */
  lemma UnknownMediumExample(configs: map<string, string>, d: Driver, ratio: string -> bool)
    requires PreparedConfigs(configs, d, ReadAll([MEDIUM_FLAG + "=" + "tape"]), ratio)
    requires d.volumeName == "vol" && !d.shared && d.cacheDir == "/gcsfuse-cache/.volumes/vol"
    ensures Get(configs, CACHE_DIR) == Some(".volumes/vol") && !ProperCacheDir(d, ".volumes/vol")
  {
    var xs := ReadAll([MEDIUM_FLAG + "=" + "tape"]);
    MediumGiven("tape", ratio);
    StrayDirOf(d);
    CacheDirProperIff(configs, d, xs, ratio);
    hide MEDIUM_FLAG, ReadAll, ValueOf, ProperCacheDir, VolumeDir, CACHE_DIR, KERNEL_PARAMS_FILE, CONFIG_DEFAULTS;
  }

  lemma StrayDirOf(d: Driver)
    requires d.volumeName == "vol"
    ensures StrayDir(d) == ".volumes/vol"
    ensures d.cacheDir == "/gcsfuse-cache/.volumes/vol" ==> d.cacheDir != StrayDir(d)
  {
    assert ".volumes/" + "vol" == ".volumes/vol";
    assert StrayDir(d)[0] == '.';
  }

  lemma MediumGiven(medium: string, ratio: string -> bool)
    ensures ValueOf(ReadAll([MEDIUM_FLAG + "=" + medium]), FileCacheMedium, ratio) == medium
  {
    MediumFlagIsSetting();
    ReadAssigned(MEDIUM_FLAG, medium);
    assert Accepts(FileCacheMedium, medium, ratio);
    hide MEDIUM_FLAG, Disallowed, SettingOf, Accepts, Read, IndexOf;
    var xs := ReadAll([MEDIUM_FLAG + "=" + medium]);
    assert xs == [Flag(MEDIUM_FLAG, medium)];
    SnocSetting([], Flag(MEDIUM_FLAG, medium), FileCacheMedium, ratio);
    assert [] + [Flag(MEDIUM_FLAG, medium)] == xs;
  }

  /** Defaults from the driver fill only the keys that are not set, in any order. */
  method MergeFlags(mountFlags: map<string, string>, driverFlags: map<string, string>) returns (r: map<string, string>)
    ensures forall k :: Get(r, k) == Or(Get(mountFlags, k), Get(driverFlags, k))
  {
    r := mountFlags;
    var rest := driverFlags.Keys;
    while rest != {}
      invariant rest <= driverFlags.Keys
      invariant forall k :: Get(r, k) == Or(Get(mountFlags, k), if k in rest then None else Get(driverFlags, k))
      decreases |rest|
    {
      var key :| key in rest;
      if key !in r {
        r := r[key := driverFlags[key]];
      }
      rest := rest - {key};
    }
  }
}
