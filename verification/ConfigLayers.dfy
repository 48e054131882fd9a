/** Layered configuration: Merge, the fold over the sources in order of priority, and the
    record of which source each value came from. */
module ConfigLayers {
  import opened Common

  datatype Source = Default | Env | File | ConfigMap | Secret

  datatype Operator = Operator(logLevel: string, reconcileInterval: int, metricsBindAddress: string,
                               healthProbeBindAddress: string, leaderElection: bool)

  datatype Cloudflare = Cloudflare(apiTimeout: int, rateLimitRPS: int, retryAttempts: int, retryDelay: int)

  datatype Flags = Flags(enableWebhooks: bool, enableMetrics: bool, enableTracing: bool,
                         experimentalFeatures: bool, customFlags: map<string, bool>)

  datatype Performance = Performance(maxConcurrentReconciles: int, reconcileTimeout: int, requeueInterval: int,
                                     requeueIntervalOnError: int, resyncPeriod: int, leaseDuration: int,
                                     renewDeadline: int, retryPeriod: int)

  datatype Config = Config(environment: string, operator: Operator, cloudflare: Cloudflare,
                           features: Option<Flags>, performance: Performance, sources: map<string, Source>)

  const EMPTY := Config("", Operator("", 0, "", "", false), Cloudflare(0, 0, 0, 0), None,
                        Performance(0, 0, 0, 0, 0, 0, 0, 0), map[])

  /** NewConfig. */
  const DEFAULTS := Config("production",
                           Operator("info", 300 * SECOND, ":8080", ":8081", true),
                           Cloudflare(30 * SECOND, 10, 3, SECOND),
                           Some(Flags(true, true, false, false, map[])),
                           Performance(5, 300 * SECOND, 300 * SECOND, 60 * SECOND, 600 * SECOND,
                                       15 * SECOND, 10 * SECOND, 2 * SECOND),
                           map[])

  // ----- Merge -----

  function Text(a: string, b: string): string {
    if b != "" then b else a
  }

  function Number(a: int, b: int): int {
    if b != 0 then b else a
  }

  /** LeaderElection has no unset value and is not merged. */
  function MergedOperator(a: Operator, b: Operator): Operator {
    Operator(Text(a.logLevel, b.logLevel), Number(a.reconcileInterval, b.reconcileInterval),
             Text(a.metricsBindAddress, b.metricsBindAddress),
             Text(a.healthProbeBindAddress, b.healthProbeBindAddress), a.leaderElection)
  }

  function MergedCloudflare(a: Cloudflare, b: Cloudflare): Cloudflare {
    Cloudflare(Number(a.apiTimeout, b.apiTimeout), Number(a.rateLimitRPS, b.rateLimitRPS),
               Number(a.retryAttempts, b.retryAttempts), Number(a.retryDelay, b.retryDelay))
  }

  function MergedFlags(a: Option<Flags>, b: Option<Flags>): Option<Flags> {
    if b.None? then a
    else
      var x, y := if a.Some? then a.value else Flags(false, false, false, false, map[]), b.value;
      Some(Flags(x.enableWebhooks || y.enableWebhooks, x.enableMetrics || y.enableMetrics,
                 x.enableTracing || y.enableTracing, x.experimentalFeatures || y.experimentalFeatures,
                 x.customFlags + y.customFlags))
  }

  function MergedPerformance(a: Performance, b: Performance): Performance {
    Performance(Number(a.maxConcurrentReconciles, b.maxConcurrentReconciles),
                Number(a.reconcileTimeout, b.reconcileTimeout), Number(a.requeueInterval, b.requeueInterval),
                Number(a.requeueIntervalOnError, b.requeueIntervalOnError), Number(a.resyncPeriod, b.resyncPeriod),
                Number(a.leaseDuration, b.leaseDuration), Number(a.renewDeadline, b.renewDeadline),
                Number(a.retryPeriod, b.retryPeriod))
  }

  function Merged(a: Config, b: Config): Config {
    Config(Text(a.environment, b.environment), MergedOperator(a.operator, b.operator),
           MergedCloudflare(a.cloudflare, b.cloudflare), MergedFlags(a.features, b.features),
           MergedPerformance(a.performance, b.performance), a.sources)
  }

  /** Go's loop `for k, v := range top { bottom[k] = v }`, in any order of the keys. */
  method Overlay<V>(bottom: map<string, V>, top: map<string, V>) returns (r: map<string, V>)
    ensures r == bottom + top
  {
    r := bottom;
    var left := top.Keys;
    while left != {}
      invariant left <= top.Keys
      invariant r == bottom + (top - left)
      decreases left
    {
      var k :| k in left;
      r := r[k := top[k]];
      left := left - {k};
    }
    assert top - {} == top;
  }

  method MergeFlags(a: Option<Flags>, b: Option<Flags>) returns (r: Option<Flags>)
    ensures r == MergedFlags(a, b)
  {
    if b.None? {
      return a;
    }
    var x := if a.Some? then a.value else Flags(false, false, false, false, map[]);
    var y := b.value;
    if y.enableWebhooks {
      x := x.(enableWebhooks := true);
    }
    if y.enableMetrics {
      x := x.(enableMetrics := true);
    }
    if y.enableTracing {
      x := x.(enableTracing := true);
    }
    if y.experimentalFeatures {
      x := x.(experimentalFeatures := true);
    }
    var custom := Overlay(x.customFlags, y.customFlags);
    r := Some(x.(customFlags := custom));
  }

  method MergeOperator(p: Operator, o: Operator) returns (r: Operator)
    ensures r == MergedOperator(p, o)
  {
    r := p;
    if o.logLevel != "" {
      r := r.(logLevel := o.logLevel);
    }
    if o.reconcileInterval != 0 {
      r := r.(reconcileInterval := o.reconcileInterval);
    }
    if o.metricsBindAddress != "" {
      r := r.(metricsBindAddress := o.metricsBindAddress);
    }
    if o.healthProbeBindAddress != "" {
      r := r.(healthProbeBindAddress := o.healthProbeBindAddress);
    }
  }

  method MergeCloudflare(p: Cloudflare, o: Cloudflare) returns (r: Cloudflare)
    ensures r == MergedCloudflare(p, o)
  {
    r := p;
    if o.apiTimeout != 0 {
      r := r.(apiTimeout := o.apiTimeout);
    }
    if o.rateLimitRPS != 0 {
      r := r.(rateLimitRPS := o.rateLimitRPS);
    }
    if o.retryAttempts != 0 {
      r := r.(retryAttempts := o.retryAttempts);
    }
    if o.retryDelay != 0 {
      r := r.(retryDelay := o.retryDelay);
    }
  }

  method MergePerformance(p: Performance, o: Performance) returns (r: Performance)
    ensures r == MergedPerformance(p, o)
  {
    r := p;
    if o.maxConcurrentReconciles != 0 {
      r := r.(maxConcurrentReconciles := o.maxConcurrentReconciles);
    }
    if o.reconcileTimeout != 0 {
      r := r.(reconcileTimeout := o.reconcileTimeout);
    }
    if o.requeueInterval != 0 {
      r := r.(requeueInterval := o.requeueInterval);
    }
    if o.requeueIntervalOnError != 0 {
      r := r.(requeueIntervalOnError := o.requeueIntervalOnError);
    }
    if o.resyncPeriod != 0 {
      r := r.(resyncPeriod := o.resyncPeriod);
    }
    if o.leaseDuration != 0 {
      r := r.(leaseDuration := o.leaseDuration);
    }
    if o.renewDeadline != 0 {
      r := r.(renewDeadline := o.renewDeadline);
    }
    if o.retryPeriod != 0 {
      r := r.(retryPeriod := o.retryPeriod);
    }
  }

  method Merge(c: Config, other: Option<Config>) returns (r: Config)
    ensures r == if other.None? then c else Merged(c, other.value)
  {
    if other.None? {
      return c;
    }
    var o := other.value;
    r := c;
    if o.environment != "" {
      r := r.(environment := o.environment);
    }
    var operator := MergeOperator(r.operator, o.operator);
    var cloudflare := MergeCloudflare(r.cloudflare, o.cloudflare);
    var features := MergeFlags(r.features, o.features);
    var performance := MergePerformance(r.performance, o.performance);
    r := r.(operator := operator, cloudflare := cloudflare, features := features, performance := performance);
  }

  /** The flags of a configuration, all off if it has none. */
  function FlagsOf(c: Config): Flags {
    if c.features.Some? then c.features.value else Flags(false, false, false, false, map[])
  }

  lemma FlagsAssociative(a: Option<Flags>, b: Option<Flags>, c: Option<Flags>)
    ensures MergedFlags(MergedFlags(a, b), c) == MergedFlags(a, MergedFlags(b, c))
  {
    if b.Some? && c.Some? {
      var x := if a.Some? then a.value.customFlags else map[];
      assert x + (b.value.customFlags + c.value.customFlags) == x + b.value.customFlags + c.value.customFlags;
      assert map[] + b.value.customFlags == b.value.customFlags;
    } else if c.Some? {
      var x := if a.Some? then a.value.customFlags else map[];
      assert x + (map[] + c.value.customFlags) == x + c.value.customFlags;
    }
  }

  /** Merging is associative, and the empty configuration is a right identity. */
  lemma MergeAssociative(a: Config, b: Config, c: Config)
    ensures Merged(Merged(a, b), c) == Merged(a, Merged(b, c))
    ensures Merged(a, EMPTY) == a
  {
    FlagsAssociative(a.features, b.features, c.features);
  }

  /** In a merged configuration a switch is on exactly if it is in one of the two, a custom flag is
      the later one if there is one, and leader election is the earlier one's. */
  lemma MergedSwitches(a: Config, b: Config)
    ensures var c := Merged(a, b);
            && c.operator.leaderElection == a.operator.leaderElection && c.sources == a.sources
            && (c.features.None? <==> a.features.None? && b.features.None?)
            && (c.features.Some? ==>
                  var x, y := FlagsOf(a), FlagsOf(b);
                  var z := c.features.value;
                  && (z.enableWebhooks <==> x.enableWebhooks || y.enableWebhooks)
                  && (z.enableMetrics <==> x.enableMetrics || y.enableMetrics)
                  && (z.enableTracing <==> x.enableTracing || y.enableTracing)
                  && (z.experimentalFeatures <==> x.experimentalFeatures || y.experimentalFeatures)
                  && forall name ::
                       && (name in z.customFlags <==> name in x.customFlags || name in y.customFlags)
                       && (name in y.customFlags ==> z.customFlags[name] == y.customFlags[name])
                       && (name in x.customFlags && name !in y.customFlags ==>
                             z.customFlags[name] == x.customFlags[name]))
  {
  }

  // ----- Fields -----

  /** The merged scalar settings.  markFieldsFromSource records the source of the first ten,
      LoadFromEnv also that of the next four. */
  datatype Field =
    | Environment | LogLevel | ReconcileInterval | MetricsBindAddress | HealthProbeBindAddress
    | APITimeout | RateLimitRPS | MaxConcurrentReconciles | ResyncPeriod | LeaseDuration
    | RetryAttempts | RetryDelay | RenewDeadline | RetryPeriod
    | ReconcileTimeout | RequeueInterval | RequeueIntervalOnError

  datatype Value = T(text: string) | N(number: int)

  function Get(c: Config, f: Field): Value {
    match f
    case Environment => T(c.environment)
    case LogLevel => T(c.operator.logLevel)
    case ReconcileInterval => N(c.operator.reconcileInterval)
    case MetricsBindAddress => T(c.operator.metricsBindAddress)
    case HealthProbeBindAddress => T(c.operator.healthProbeBindAddress)
    case APITimeout => N(c.cloudflare.apiTimeout)
    case RateLimitRPS => N(c.cloudflare.rateLimitRPS)
    case MaxConcurrentReconciles => N(c.performance.maxConcurrentReconciles)
    case ResyncPeriod => N(c.performance.resyncPeriod)
    case LeaseDuration => N(c.performance.leaseDuration)
    case RetryAttempts => N(c.cloudflare.retryAttempts)
    case RetryDelay => N(c.cloudflare.retryDelay)
    case ReconcileTimeout => N(c.performance.reconcileTimeout)
    case RequeueInterval => N(c.performance.requeueInterval)
    case RequeueIntervalOnError => N(c.performance.requeueIntervalOnError)
    case RenewDeadline => N(c.performance.renewDeadline)
    case RetryPeriod => N(c.performance.retryPeriod)
  }

  predicate IsSet(c: Config, f: Field) {
    Get(c, f) != T("") && Get(c, f) != N(0)
  }

  lemma MergeField(a: Config, b: Config, f: Field)
    ensures Get(Merged(a, b), f) == Get(if IsSet(b, f) then b else a, f)
  {
  }

  lemma SameSettings(c: Config, c': Config, f: Field)
    requires c' == c.(sources := c'.sources)
    ensures IsSet(c', f) == IsSet(c, f) && Get(c', f) == Get(c, f)
  {
  }

  /** The key under which a source is recorded; "" if it never is. */
  function Name(f: Field): string {
    match f
    case Environment => "environment"
    case LogLevel => "operator.logLevel"
    case ReconcileInterval => "operator.reconcileInterval"
    case MetricsBindAddress => "operator.metricsBindAddress"
    case HealthProbeBindAddress => "operator.healthProbeBindAddress"
    case APITimeout => "cloudflare.apiTimeout"
    case RateLimitRPS => "cloudflare.rateLimitRPS"
    case MaxConcurrentReconciles => "performance.maxConcurrentReconciles"
    case ResyncPeriod => "performance.resyncPeriod"
    case LeaseDuration => "performance.leaderElectionLeaseDuration"
    case RetryAttempts => "cloudflare.retryAttempts"
    case RetryDelay => "cloudflare.retryDelay"
    case RenewDeadline => "performance.leaderElectionRenewDeadline"
    case RetryPeriod => "performance.leaderElectionRetryPeriod"
    case _ => ""
  }

  const TRACKED: seq<Field> :=
    [Environment, LogLevel, ReconcileInterval, MetricsBindAddress, HealthProbeBindAddress,
     APITimeout, RateLimitRPS, MaxConcurrentReconciles, ResyncPeriod, LeaseDuration]

  /** The keys differ in length, or in the character that follows a common start. */
  lemma NamesDiffer(f: Field, g: Field)
    requires Name(f) != "" && Name(f) == Name(g)
    ensures f == g
  {
    assert |Name(f)| == |Name(g)| && Name(f)[0] == Name(g)[0];
    assert |Name(f)| == 21 ==> Name(f)[11] == Name(g)[11];
    assert |Name(f)| == 39 ==> Name(f)[26] == Name(g)[26];
  }

  // ----- Recording the sources -----

  /** markFieldsFromSource over a list of fields: set values get the source. */
  function Mark(sources: map<string, Source>, c: Config, fields: seq<Field>, source: Source): map<string, Source> {
    if fields == [] then sources
    else
      var before, f := Mark(sources, c, fields[..|fields| - 1], source), fields[|fields| - 1];
      if IsSet(c, f) then before[Name(f) := source] else before
  }

  /** One of the ten conditional assignments. */
  method MarkField(c: Config, sources: map<string, Source>, ghost k: nat, f: Field, isSet: bool, source: Source)
    returns (r: map<string, Source>)
    requires k < |TRACKED| && sources == Mark(c.sources, c, TRACKED[..k], source)
    requires f == TRACKED[k] && isSet == IsSet(c, f)
    ensures r == Mark(c.sources, c, TRACKED[..k + 1], source)
  {
    hide IsSet, Name;
    assert TRACKED[..k + 1][..k] == TRACKED[..k];
    r := sources;
    if isSet {
      r := r[Name(f) := source];
    }
  }

  method MarkGeneral(c: Config, sources: map<string, Source>, source: Source) returns (m: map<string, Source>)
    requires sources == Mark(c.sources, c, TRACKED[..0], source)
    ensures m == Mark(c.sources, c, TRACKED[..5], source)
  {
    hide Mark, Name;
    m := sources;
    m := MarkField(c, m, 0, Environment, c.environment != "", source);
    m := MarkField(c, m, 1, LogLevel, c.operator.logLevel != "", source);
    m := MarkField(c, m, 2, ReconcileInterval, c.operator.reconcileInterval != 0, source);
    m := MarkField(c, m, 3, MetricsBindAddress, c.operator.metricsBindAddress != "", source);
    m := MarkField(c, m, 4, HealthProbeBindAddress, c.operator.healthProbeBindAddress != "", source);
  }

  method MarkTuning(c: Config, sources: map<string, Source>, source: Source) returns (m: map<string, Source>)
    requires sources == Mark(c.sources, c, TRACKED[..5], source)
    ensures m == Mark(c.sources, c, TRACKED[..10], source)
  {
    hide Mark, Name;
    m := sources;
    m := MarkField(c, m, 5, APITimeout, c.cloudflare.apiTimeout != 0, source);
    m := MarkField(c, m, 6, RateLimitRPS, c.cloudflare.rateLimitRPS != 0, source);
    m := MarkField(c, m, 7, MaxConcurrentReconciles, c.performance.maxConcurrentReconciles != 0, source);
    m := MarkField(c, m, 8, ResyncPeriod, c.performance.resyncPeriod != 0, source);
    m := MarkField(c, m, 9, LeaseDuration, c.performance.leaseDuration != 0, source);
  }

  method MarkFieldsFromSource(c: Config, source: Source) returns (r: Config)
    ensures r == c.(sources := Mark(c.sources, c, TRACKED, source))
  {
    var m := c.sources;
    assert m == Mark(c.sources, c, TRACKED[..0], source);
    hide Mark;
    m := MarkGeneral(c, m, source);
    m := MarkTuning(c, m, source);
    assert TRACKED[..10] == TRACKED;
    r := c.(sources := m);
  }

  predicate Distinct(fields: seq<Field>) {
    forall i | 0 <= i < |fields| :: Name(fields[i]) != ""
  }

  /** Exactly the set fields of the list are marked anew. */
  lemma {:induction false} MarkExactly(sources: map<string, Source>, c: Config, fields: seq<Field>, source: Source,
                                       f: Field)
    requires Distinct(fields) && Name(f) != ""
    ensures var marked := Mark(sources, c, fields, source);
            if f in fields && IsSet(c, f) then Name(f) in marked && marked[Name(f)] == source
            else (Name(f) in marked <==> Name(f) in sources) &&
                 (Name(f) in sources ==> marked[Name(f)] == sources[Name(f)])
  {
    hide Name, IsSet;
    if fields != [] {
      var g := fields[|fields| - 1];
      MarkExactly(sources, c, fields[..|fields| - 1], source, f);
      if Name(f) == Name(g) {
        NamesDiffer(f, g);
      }
      assert f in fields <==> f in fields[..|fields| - 1] || f == g;
    }
  }

  // ----- Loading -----

  /** What a source contributes: a partial configuration and the keys it claims. */
  datatype Layer = Layer(config: Config, marks: map<string, Source>)

  const MARKED_DEFAULTS := DEFAULTS.(sources := Mark(map[], DEFAULTS, TRACKED, Default))

  function LoadedConfig(layers: seq<Layer>): Config {
    if layers == [] then MARKED_DEFAULTS
    else Merged(LoadedConfig(layers[..|layers| - 1]), layers[|layers| - 1].config)
  }

  function LoadedSources(layers: seq<Layer>): map<string, Source> {
    if layers == [] then map k | k in MARKED_DEFAULTS.sources :: Default
    else LoadedSources(layers[..|layers| - 1]) + layers[|layers| - 1].marks
  }

  /** One requested source: not asked for, failed, or loaded. */
  datatype Fetched = Absent | Failed(message: string) | Got(config: Config)

  datatype LoadResult = LoadFailed | LoadOk(config: Config, sources: map<string, Source>)

  /** A file's keys are marked and attributed to the file whatever they said before. */
  function FileLayer(c: Config): Layer {
    var marked := Mark(c.sources, c, TRACKED, File);
    Layer(c.(sources := marked), map k | k in marked :: File)
  }

  function Present(fetched: Fetched, file: bool): seq<Layer> {
    if !fetched.Got? then []
    else [if file then FileLayer(fetched.config) else Layer(fetched.config, fetched.config.sources)]
  }

  /** From the lowest priority to the highest: file, Secret, ConfigMap, environment. */
  function Layers(file: Fetched, secret: Fetched, configMap: Fetched, env: Fetched): seq<Layer> {
    Present(file, true) + Present(secret, false) + Present(configMap, false) + Present(env, false)
  }

  lemma {:induction false} LayerOnTop(layers: seq<Layer>, top: Layer)
    ensures LoadedConfig(layers + [top]) == Merged(LoadedConfig(layers), top.config)
    ensures LoadedSources(layers + [top]) == LoadedSources(layers) + top.marks
  {
    assert (layers + [top])[..|layers|] == layers;
  }

  /** Merging one more loaded source on top of what was loaded. */
  method AddLayer(config: Config, sources: map<string, Source>, fetched: Fetched, ghost layers: seq<Layer>)
    returns (c: Config, s: map<string, Source>)
    requires config == LoadedConfig(layers) && sources == LoadedSources(layers) && !fetched.Failed?
    ensures c == LoadedConfig(layers + Present(fetched, false))
    ensures s == LoadedSources(layers + Present(fetched, false))
  {
    c, s := config, sources;
    assert layers + [] == layers;
    if fetched.Got? {
      LayerOnTop(layers, Layer(fetched.config, fetched.config.sources));
      c := Merge(config, Some(fetched.config));
      s := Overlay(sources, fetched.config.sources);
    }
  }

  lemma LayersInOrder(file: Fetched, secret: Fetched, configMap: Fetched, env: Fetched)
    ensures Layers(file, secret, configMap, env) ==
            Present(file, true) + Present(secret, false) + Present(configMap, false) + Present(env, false)
  {
  }

  lemma MarksDoNotMatter(a: Config, b: Config, b': Config)
    requires b' == b.(sources := b'.sources)
    ensures Merged(a, b) == Merged(a, b')
  {
  }

  /** The defaults, and the file if there is one. */
  method LoadFile(file: Fetched) returns (config: Config, sources: map<string, Source>)
    requires !file.Failed?
    ensures config == LoadedConfig(Present(file, true)) && sources == LoadedSources(Present(file, true))
  {
    hide Merged, Mark;
    config := MarkFieldsFromSource(DEFAULTS, Default);
    sources := map k | k in config.sources :: Default;
    if file.Got? {
      LayerOnTop([], FileLayer(file.config));
      config := Merge(config, Some(file.config));
      var marked := MarkFieldsFromSource(file.config, File);
      sources := Overlay(sources, map k | k in marked.sources :: File);
      MarksDoNotMatter(LoadedConfig([]), file.config, FileLayer(file.config).config);
      assert [] + Present(file, true) == Present(file, true);
    }
  }

  /** LoadWithPriority: `validate` is the outcome of Validate when it is asked for. */
  method LoadWithPriority(file: Fetched, secret: Fetched, configMap: Fetched, env: Fetched,
                          validate: Option<Config -> bool>) returns (r: LoadResult)
    ensures var layers := Layers(file, secret, configMap, env);
            r == if (file.Absent? && secret.Absent? && configMap.Absent? && env.Absent?) ||
                    file.Failed? || secret.Failed? || configMap.Failed? || env.Failed? ||
                    (validate.Some? && !validate.value(LoadedConfig(layers)))
                 then LoadFailed else LoadOk(LoadedConfig(layers), LoadedSources(layers))
  {
    if file.Absent? && secret.Absent? && configMap.Absent? && env.Absent? {
      return LoadFailed;
    }
    LayersInOrder(file, secret, configMap, env);
    hide *;
    if file.Failed? {
      return LoadFailed;
    }
    ghost var layers := Present(file, true);
    var config, sources := LoadFile(file);
    if secret.Failed? {
      return LoadFailed;
    }
    config, sources := AddLayer(config, sources, secret, layers);
    if configMap.Failed? {
      return LoadFailed;
    }
    layers := layers + Present(secret, false);
    config, sources := AddLayer(config, sources, configMap, layers);
    if env.Failed? {
      return LoadFailed;
    }
    layers := layers + Present(configMap, false);
    config, sources := AddLayer(config, sources, env, layers);
    if validate.Some? && !validate.value(config) {
      return LoadFailed;
    }
    r := LoadOk(config, sources);
  }

  // ----- Which source wins -----

  /** The highest layer that sets the field, or -1 for the defaults. */
  function LastSetting(layers: seq<Layer>, f: Field): (i: int)
    ensures -1 <= i < |layers|
    ensures i >= 0 ==> IsSet(layers[i].config, f)
    ensures forall k | i < k < |layers| :: !IsSet(layers[k].config, f)
  {
    if layers == [] then -1
    else if IsSet(layers[|layers| - 1].config, f) then |layers| - 1
    else LastSetting(layers[..|layers| - 1], f)
  }

  /** The highest layer that claims the key, or -1 for the defaults. */
  function LastMarking(layers: seq<Layer>, name: string): (i: int)
    ensures -1 <= i < |layers|
    ensures i >= 0 ==> name in layers[i].marks
    ensures forall k | i < k < |layers| :: name !in layers[k].marks
  {
    if layers == [] then -1
    else if name in layers[|layers| - 1].marks then |layers| - 1
    else LastMarking(layers[..|layers| - 1], name)
  }

  /** Every merged scalar is that of the highest-priority source that sets it. */
  lemma {:induction false} ValueFromHighest(layers: seq<Layer>, f: Field)
    ensures var i := LastSetting(layers, f);
            Get(LoadedConfig(layers), f) == if i >= 0 then Get(layers[i].config, f) else Get(DEFAULTS, f)
  {
    if layers != [] {
      ValueFromHighest(layers[..|layers| - 1], f);
      MergeField(LoadedConfig(layers[..|layers| - 1]), layers[|layers| - 1].config, f);
    }
  }

  /** The ten are the recorded scalars less the four that only LoadFromEnv records. */
  lemma TrackedAreNamed()
    ensures Distinct(TRACKED)
    ensures forall f :: f in TRACKED <==>
              Name(f) != "" && f !in {RetryAttempts, RetryDelay, RenewDeadline, RetryPeriod}
  {
  }

  lemma DefaultsAreSet(f: Field)
    ensures IsSet(DEFAULTS, f)
  {
  }

  lemma DefaultsMarked(f: Field)
    requires f in TRACKED
    ensures Name(f) in MARKED_DEFAULTS.sources && MARKED_DEFAULTS.sources[Name(f)] == Default
  {
    hide Name, IsSet, Mark;
    TrackedAreNamed();
    DefaultsAreSet(f);
    MarkExactly(map[], DEFAULTS, TRACKED, Default, f);
  }

  /** The keys that Mark adds are names of fields of its list. */
  lemma {:induction false} MarkedNames(sources: map<string, Source>, c: Config, fields: seq<Field>, source: Source,
                                       name: string)
    requires name !in sources && forall i | 0 <= i < |fields| :: Name(fields[i]) != name
    ensures name !in Mark(sources, c, fields, source)
  {
    hide Name, IsSet;
    if fields != [] {
      MarkedNames(sources, c, fields[..|fields| - 1], source, name);
    }
  }

  /** The source recorded under a key, if any. */
  function Recorded(layers: seq<Layer>, name: string): Option<Source> {
    var sources := LoadedSources(layers);
    if name in sources then Some(sources[name]) else None
  }

  /** The recorded source of every key is that of the highest layer that claims it. */
  lemma {:induction false} SourceFromHighest(layers: seq<Layer>, name: string)
    ensures var i := LastMarking(layers, name);
            Recorded(layers, name) == if i >= 0 then Some(layers[i].marks[name]) else Recorded([], name)
  {
    if layers != [] {
      SourceFromHighest(layers[..|layers| - 1], name);
    }
  }

  predicate Sets(fetched: Fetched, f: Field) {
    fetched.Got? && IsSet(fetched.config, f)
  }

  predicate Claims(fetched: Fetched, name: string) {
    fetched.Got? && name in fetched.config.sources
  }

  lemma {:induction false} OneMoreLayer(layers: seq<Layer>, fetched: Fetched, file: bool, f: Field)
    ensures Get(LoadedConfig(layers + Present(fetched, file)), f) ==
            Get(if Sets(fetched, f) then fetched.config else LoadedConfig(layers), f)
    ensures !file ==>
              forall name ::
                Recorded(layers + Present(fetched, file), name) ==
                if Claims(fetched, name) then Some(fetched.config.sources[name]) else Recorded(layers, name)
  {
    hide Get, IsSet, Merged, Mark;
    if fetched.Got? {
      var top := Present(fetched, file)[0];
      LayerOnTop(layers, top);
      MergeField(LoadedConfig(layers), top.config, f);
      SameSettings(fetched.config, top.config, f);
    } else {
      assert layers + Present(fetched, file) == layers;
    }
  }

  lemma NoLayers(f: Field)
    ensures Get(LoadedConfig([]), f) == Get(DEFAULTS, f)
  {
  }

  /** The order of priority, spelled out: environment, then ConfigMap, then Secret, then file, then
      the defaults, for every scalar; and for every recorded source down to the file. */
  lemma {:induction false} PriorityOrder(file: Fetched, secret: Fetched, configMap: Fetched, env: Fetched, f: Field)
    ensures Get(LoadedConfig(Layers(file, secret, configMap, env)), f) ==
            Get(if Sets(env, f) then env.config
                else if Sets(configMap, f) then configMap.config
                else if Sets(secret, f) then secret.config
                else if Sets(file, f) then file.config
                else DEFAULTS, f)
    ensures forall name ::
              Recorded(Layers(file, secret, configMap, env), name) ==
              if Claims(env, name) then Some(env.config.sources[name])
              else if Claims(configMap, name) then Some(configMap.config.sources[name])
              else if Claims(secret, name) then Some(secret.config.sources[name])
              else Recorded(Present(file, true), name)
  {
    hide Get, IsSet, Present, Recorded, LoadedConfig, LoadedSources;
    NoLayers(f);
    OneMoreLayer([], file, true, f);
    var layers := Present(file, true);
    assert [] + layers == layers;
    OneMoreLayer(layers, secret, false, f);
    layers := layers + Present(secret, false);
    OneMoreLayer(layers, configMap, false, f);
    OneMoreLayer(layers + Present(configMap, false), env, false, f);
  }

  /** Without layers the ten keys are attributed to the defaults, and no other key is recorded. */
  lemma DefaultOrigin(name: string)
    ensures Recorded([], name) == if exists f :: f in TRACKED && Name(f) == name then Some(Default) else None
  {
    if f :| f in TRACKED && Name(f) == name {
      DefaultsMarked(f);
    } else {
      hide Name, IsSet;
      MarkedNames(map[], DEFAULTS, TRACKED, Default, name);
    }
  }

  predicate MarkedBy(marks: map<string, Source>, source: Source) {
    forall name | name in marks :: marks[name] == source
  }

  /** Layer i marks its keys with labels[i]; no two layers and not the defaults share a label. */
  predicate Labelled(layers: seq<Layer>, labels: seq<Source>) {
    && |labels| == |layers|
    && (forall i | 0 <= i < |labels| :: labels[i] != Default)
    && (forall i, j | 0 <= i < j < |labels| :: labels[i] != labels[j])
    && (forall i | 0 <= i < |layers| :: MarkedBy(layers[i].marks, labels[i]))
  }

  lemma Unlayered(f: Field)
    requires Name(f) != ""
    ensures Recorded([], Name(f)) == if f in TRACKED then Some(Default) else None
  {
    DefaultOrigin(Name(f));
    if g :| g in TRACKED && Name(g) == Name(f) {
      NamesDiffer(f, g);
    }
  }

  /** The recorded source is right: the label of the layer that sets the field, and for a field
      no layer sets what is recorded without any layer. */
  predicate RightSource(layers: seq<Layer>, labels: seq<Source>, f: Field)
    requires |labels| == |layers|
  {
    var i := LastSetting(layers, f);
    Recorded(layers, Name(f)) == if i >= 0 then Some(labels[i]) else Recorded([], Name(f))
  }

  /** The recorded source is the one whose value is in the result exactly if that source claims
      the key and no source of higher priority claims it without setting it. */
  lemma {:induction false} ProvenanceIsRight(layers: seq<Layer>, labels: seq<Source>, f: Field)
    requires Name(f) != "" && Labelled(layers, labels)
    ensures var i := LastSetting(layers, f);
            && Get(LoadedConfig(layers), f) == Get(if i >= 0 then layers[i].config else DEFAULTS, f)
            && (RightSource(layers, labels, f) <==>
                  (i >= 0 ==> Name(f) in layers[i].marks) &&
                  forall k | i < k < |layers| :: Name(f) !in layers[k].marks)
    ensures Recorded([], Name(f)) == if f in TRACKED then Some(Default) else None
  {
    hide Name, Get, IsSet, Mark, Merged, LoadedConfig, LoadedSources, Recorded, LastSetting, LastMarking;
    Unlayered(f);
    ValueFromHighest(layers, f);
    SourceFromHighest(layers, Name(f));
  }

  /** What no source can change: leader election stays on, webhooks and metrics stay enabled,
      and the loaded configuration's own record still names the defaults. */
  lemma {:induction false} NeverOverridden(layers: seq<Layer>)
    ensures var c := LoadedConfig(layers);
            && c.operator.leaderElection
            && c.features.Some? && c.features.value.enableWebhooks && c.features.value.enableMetrics
            && c.sources == MARKED_DEFAULTS.sources
  {
    if layers != [] {
      NeverOverridden(layers[..|layers| - 1]);
    }
  }

  /** The settings whose recorded source is never the origin of their value. */
  const UNMERGED: seq<string> := ["operator.leaderElection", "features.enableWebhooks", "features.enableMetrics"]

  lemma NotTracked(name: string)
    requires name in UNMERGED
    ensures forall f :: f in TRACKED ==> Name(f) != name
  {
    forall f | f in TRACKED
      ensures Name(f) != name
    {
      assert |Name(f)| != 23 || Name(f)[0] != name[0];
    }
  }

  /** Their values are the defaults' after every load; a source is recorded exactly if some layer
      claims the key, and it is then that of a layer. */
  lemma {:induction false} RecordedInVain(layers: seq<Layer>, labels: seq<Source>, name: string)
    requires Labelled(layers, labels) && name in UNMERGED
    ensures var c := LoadedConfig(layers);
            && c.operator.leaderElection == DEFAULTS.operator.leaderElection
            && c.features.Some?
            && c.features.value.enableWebhooks == DEFAULTS.features.value.enableWebhooks
            && c.features.value.enableMetrics == DEFAULTS.features.value.enableMetrics
    ensures Recorded(layers, name).Some? <==> exists i :: 0 <= i < |layers| && name in layers[i].marks
    ensures Recorded(layers, name).Some? ==>
              Recorded(layers, name).value != Default && Recorded(layers, name).value in labels
  {
    NeverOverridden(layers);
    NotTracked(name);
    DefaultOrigin(name);
    hide Name, Merged, Recorded;
    SourceFromHighest(layers, name);
  }

  function LabelIf(fetched: Fetched, source: Source): seq<Source> {
    if fetched.Got? then [source] else []
  }

  /** The labels of the layers of a load, in the same order. */
  function Labels(file: Fetched, secret: Fetched, configMap: Fetched, env: Fetched): seq<Source> {
    LabelIf(file, File) + LabelIf(secret, Secret) + LabelIf(configMap, ConfigMap) + LabelIf(env, Env)
  }

  /** What the loaders return: each writes only its own label into the record it builds. */
  predicate Attributed(fetched: Fetched, source: Source) {
    fetched.Got? ==> MarkedBy(fetched.config.sources, source)
  }

  lemma NoneLabelled()
    ensures Labelled([], [])
  {
  }

  lemma LabelledMore(layers: seq<Layer>, labels: seq<Source>, fetched: Fetched, file: bool, source: Source)
    requires Labelled(layers, labels) && source != Default && source !in labels
    requires if file then source == File else Attributed(fetched, source)
    ensures Labelled(layers + Present(fetched, file), labels + LabelIf(fetched, source))
  {
    hide Mark, Merged;
  }

  /** So the layers of every load are labelled. */
  lemma LoadsAreLabelled(file: Fetched, secret: Fetched, configMap: Fetched, env: Fetched)
    requires Attributed(secret, Secret) && Attributed(configMap, ConfigMap) && Attributed(env, Env)
    ensures Labelled(Layers(file, secret, configMap, env), Labels(file, secret, configMap, env))
  {
    hide Mark, Attributed, Labelled, Present;
    NoneLabelled();
    LabelledMore([], [], file, true, File);
    var layers, labels := Present(file, true), LabelIf(file, File);
    assert [] + layers == layers && [] + labels == labels;
    LabelledMore(layers, labels, secret, false, Secret);
    layers, labels := layers + Present(secret, false), labels + LabelIf(secret, Secret);
    LabelledMore(layers, labels, configMap, false, ConfigMap);
    layers, labels := layers + Present(configMap, false), labels + LabelIf(configMap, ConfigMap);
    LabelledMore(layers, labels, env, false, Env);
  }

  /** A parsed file carries no marks of its own and claims exactly those of the ten fields that it
      sets; the retry and lease renewal settings that it also may set it never claims. */
  lemma FileIsHonest(c: Config, f: Field)
    requires Name(f) != "" && c.sources == map[]
    ensures Name(f) in FileLayer(c).marks <==> f in TRACKED && IsSet(FileLayer(c).config, f)
    ensures MarkedBy(FileLayer(c).marks, File)
  {
    hide Name, IsSet;
    TrackedAreNamed();
    MarkExactly(map[], c, TRACKED, File, f);
    SameSettings(c, FileLayer(c).config, f);
  }

  /** What LoadFromEnv returns when the rate limit is set to "0" and nothing else is set. */
  const ZERO_RATE := EMPTY.(features := Some(Flags(false, false, false, false, map[])),
                            sources := map["cloudflare.rateLimitRPS" := Env])

  /** The environment is then recorded as the source of the default rate limit. */
  lemma ZeroIsMisattributed()
    ensures var layers := Layers(Absent, Absent, Absent, Got(ZERO_RATE));
            && Labelled(layers, [Env])
            && Get(LoadedConfig(layers), RateLimitRPS) == Get(DEFAULTS, RateLimitRPS) == N(10)
            && Recorded(layers, Name(RateLimitRPS)) == Some(Env)
  {
    var layers := Layers(Absent, Absent, Absent, Got(ZERO_RATE));
    LoadsAreLabelled(Absent, Absent, Absent, Got(ZERO_RATE));
    assert layers == [Layer(ZERO_RATE, ZERO_RATE.sources)];
    hide LoadedConfig, LoadedSources, Recorded, Mark, Labelled;
    ValueFromHighest(layers, RateLimitRPS);
    SourceFromHighest(layers, Name(RateLimitRPS));
  }

  predicate TurnsOnTracing(c: Config) {
    c.features.Some? && c.features.value.enableTracing
  }

  predicate TurnsOnExperiments(c: Config) {
    c.features.Some? && c.features.value.experimentalFeatures
  }

  /** The highest layer with a custom flag of this name, or -1. */
  function LastFlag(layers: seq<Layer>, name: string): (i: int)
    ensures -1 <= i < |layers|
    ensures i >= 0 ==> name in FlagsOf(layers[i].config).customFlags
    ensures forall k | i < k < |layers| :: name !in FlagsOf(layers[k].config).customFlags
  {
    if layers == [] then -1
    else if name in FlagsOf(layers[|layers| - 1].config).customFlags then |layers| - 1
    else LastFlag(layers[..|layers| - 1], name)
  }

  /** A custom flag is that of the highest-priority source that has it, and absent if none has. */
  lemma {:induction false} CustomFlagFromHighest(layers: seq<Layer>, name: string)
    ensures var i, flags := LastFlag(layers, name), FlagsOf(LoadedConfig(layers)).customFlags;
            && (name in flags <==> i >= 0)
            && (i >= 0 ==> flags[name] == FlagsOf(layers[i].config).customFlags[name])
  {
    if layers != [] {
      var before := layers[..|layers| - 1];
      CustomFlagFromHighest(before, name);
      MergedSwitches(LoadedConfig(before), layers[|layers| - 1].config);
      hide Merged;
    }
  }

  /** The other flags are on exactly if some source switches them on. */
  lemma {:induction false} FlagsAreOred(layers: seq<Layer>)
    ensures var c := LoadedConfig(layers);
            && c.features.Some?
            && (c.features.value.enableTracing <==> exists i | 0 <= i < |layers| :: TurnsOnTracing(layers[i].config))
            && (c.features.value.experimentalFeatures <==>
                  exists i | 0 <= i < |layers| :: TurnsOnExperiments(layers[i].config))
  {
    if layers != [] {
      var before := layers[..|layers| - 1];
      FlagsAreOred(before);
      assert forall i | 0 <= i < |before| :: before[i] == layers[i];
    }
  }
}
