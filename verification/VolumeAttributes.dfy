/** Translating volume attributes to mount options in Go's random map order
    (pkg/csi_driver/utils.go: parseVolumeAttributes). */
module VolumeAttributes {
  import opened GoStrings
  import opened SortedStrings
  import opened MountOptions

  datatype Attribute =
    | FileCacheCapacity | FileCacheForRangeRead | MetadataStatCacheCapacity | MetadataTypeCacheCapacity
    | MetadataCacheTTLSeconds | MetadataCacheTtlSeconds | LoggingSeverity | SkipBucketAccessCheck
    | HostNetworkPodKSA | IdentityProvider | DisableMetrics | CloudProfiler

  const ATTRIBUTES: set<Attribute> :=
    {FileCacheCapacity, FileCacheForRangeRead, MetadataStatCacheCapacity, MetadataTypeCacheCapacity,
     MetadataCacheTTLSeconds, MetadataCacheTtlSeconds, LoggingSeverity, SkipBucketAccessCheck,
     HostNetworkPodKSA, IdentityProvider, DisableMetrics, CloudProfiler}

  /** The volume context: values of the attributes above, of mountOptions and of multiNICIndex. */
  datatype Context = Context(values: map<Attribute, string>, mountOptions: Option<string>, multiNICIndex: Option<string>)

  datatype Quantity = Quantity(value: int, binarySI: bool)

  /** What an attribute's value asks for. The identity provider joins the empty option. */
  datatype Request = Bad | Flag(b: bool) | Opt(option: string)

  function Prefix(a: Attribute): string {
    match a
    case FileCacheCapacity => "file-cache:max-size-mb:"
    case FileCacheForRangeRead => "file-cache:cache-file-for-range-read:"
    case MetadataStatCacheCapacity => "metadata-cache:stat-cache-max-size-mb:"
    case MetadataTypeCacheCapacity => "metadata-cache:type-cache-max-size-mb:"
    case MetadataCacheTTLSeconds => "metadata-cache:ttl-secs:"
    case MetadataCacheTtlSeconds => "metadata-cache:ttl-secs:"
    case LoggingSeverity => "logging:severity:"
    case DisableMetrics => "disable-metrics-for-gke:"
    case _ => ""
  }

  function FormatBool(b: bool): string {
    if b then "true" else "false"
  }

  function Megabytes(q: Quantity): string {
    if q.value < 0 then "-1"
    else if q.binarySI then Itoa(q.value / 1024 / 1024)
    else Itoa(q.value / 1000 / 1000)
  }

  function Translate(a: Attribute, v: string, parseQuantity: string -> Option<Quantity>): Request {
    if a == FileCacheCapacity || a == MetadataStatCacheCapacity || a == MetadataTypeCacheCapacity then
      if parseQuantity(v).None? then Bad else Opt(Prefix(a) + Megabytes(parseQuantity(v).value))
    else if a == FileCacheForRangeRead || a == SkipBucketAccessCheck || a == DisableMetrics || a == HostNetworkPodKSA || a == CloudProfiler then
      if ParseBool(v).None? then Bad
      else if a == FileCacheForRangeRead || a == DisableMetrics then Opt(Prefix(a) + FormatBool(ParseBool(v).value))
      else Flag(ParseBool(v).value)
    else if a == MetadataCacheTTLSeconds || a == MetadataCacheTtlSeconds then
      if Atoi(v).None? then Bad else Opt(Prefix(a) + Itoa(if Atoi(v).value < 0 then -1 else Atoi(v).value))
    else if a == IdentityProvider then Opt("")
    else Opt(Prefix(a) + v)
  }

  /** The option or setting each attribute stands for, written out. */
  lemma TranslatesSize(v: string, pq: string -> Option<Quantity>)
    ensures var q := pq(v);
            && Translate(FileCacheCapacity, v, pq) == (if q.None? then Bad else Opt("file-cache:max-size-mb:" + Megabytes(q.value)))
            && Translate(MetadataStatCacheCapacity, v, pq)
               == (if q.None? then Bad else Opt("metadata-cache:stat-cache-max-size-mb:" + Megabytes(q.value)))
            && Translate(MetadataTypeCacheCapacity, v, pq)
               == (if q.None? then Bad else Opt("metadata-cache:type-cache-max-size-mb:" + Megabytes(q.value)))
  {
    hide Megabytes;
  }

  lemma TranslatesBool(v: string, pq: string -> Option<Quantity>)
    ensures var b := ParseBool(v);
            && Translate(FileCacheForRangeRead, v, pq)
               == (if b.None? then Bad else Opt("file-cache:cache-file-for-range-read:" + if b.value then "true" else "false"))
            && Translate(DisableMetrics, v, pq)
               == (if b.None? then Bad else Opt("disable-metrics-for-gke:" + if b.value then "true" else "false"))
  {
    hide ParseBool;
  }

  lemma TranslatesSwitch(v: string, pq: string -> Option<Quantity>)
    ensures var b := ParseBool(v);
            Translate(SkipBucketAccessCheck, v, pq) == Translate(HostNetworkPodKSA, v, pq) == Translate(CloudProfiler, v, pq)
            == if b.None? then Bad else Flag(b.value)
    ensures Translate(LoggingSeverity, v, pq) == Opt("logging:severity:" + v) && Translate(IdentityProvider, v, pq) == Opt("")
  {
    hide ParseBool;
  }

  lemma TranslatesSeconds(v: string, pq: string -> Option<Quantity>)
    ensures Translate(MetadataCacheTTLSeconds, v, pq) == Translate(MetadataCacheTtlSeconds, v, pq)
            == if Atoi(v).None? then Bad else Opt("metadata-cache:ttl-secs:" + if Atoi(v).value < 0 then "-1" else Itoa(Atoi(v).value))
  {
    MinusOne();
    hide Atoi, Itoa;
  }

  lemma MinusOne()
    ensures Itoa(-1) == "-1"
  {
    assert ItoaNat(1) == "1";
  }

  /** A size in megabytes is rounded down, by the unit of its format; a negative one is unlimited. */
  lemma MegabytesRoundDown(q: Quantity, n: nat)
    ensures q.value < 0 ==> Megabytes(q) == "-1"
    ensures var unit := if q.binarySI then 1024 * 1024 else 1000 * 1000;
            n * unit <= q.value < (n + 1) * unit ==> Megabytes(q) == Itoa(n)
  {
    var unit := if q.binarySI then 1024 * 1024 else 1000 * 1000;
    if n * unit <= q.value < (n + 1) * unit {
      assert q.binarySI ==> q.value / 1024 / 1024 == n;
      assert !q.binarySI ==> q.value / 1000 / 1000 == n;
    }
    hide Itoa;
  }

  /** Every joined option is empty or plain, so joining commutes. */
  lemma JoinsPlain(a: Attribute, v: string, parseQuantity: string -> Option<Quantity>)
    requires Translate(a, v, parseQuantity).Opt?
    ensures var k := KindOf(Translate(a, v, parseQuantity).option); k == Empty || k == Plain
  {
    var o := Translate(a, v, parseQuantity).option;
    if a != IdentityProvider {
      PrefixShape(a, v, parseQuantity);
      hide Translate;
      ShapeIsPlain(o);
    }
  }

  /** Two characters that tell an attribute's option from the special options. */
  predicate Shape(o: string) {
    |o| > 5 && o[0] != 'g' && o[5] != 'm' && o[5] != 'o' && o[5] != 'i'
  }

  lemma PrefixShape(a: Attribute, v: string, parseQuantity: string -> Option<Quantity>)
    requires a != IdentityProvider && Translate(a, v, parseQuantity).Opt?
    ensures Shape(Translate(a, v, parseQuantity).option)
  {
    PrefixOk(a);
    hide Itoa, Atoi, ParseBool, Megabytes, Prefix, FormatBool;
  }

  lemma PrefixOk(a: Attribute)
    ensures Prefix(a) != "" ==> Shape(Prefix(a))
    ensures Prefix(a) == "" <==> a in {SkipBucketAccessCheck, HostNetworkPodKSA, IdentityProvider, CloudProfiler}
  {
  }

  lemma ShapeIsPlain(o: string)
    requires Shape(o)
    ensures KindOf(o) == Plain
  {
    var i := IndexOf(o, '=');
    if i >= 0 {
      var key := o[..i];
      assert |key| > 0 ==> key[0] == o[0];
      assert |key| > 5 ==> key[5] == o[5];
    }
  }

  // ----- The result, as a function of the context alone -----

  datatype Args = Args(
    identityProvider: string, options: seq<string>,
    skipBucketAccessCheck: bool, disableMetrics: bool, hostNetworkKSA: bool, cloudProfiler: bool,
    multiNICIndex: int)

  type Parser = string -> Option<Quantity>

  predicate Good(ctx: Context, a: Attribute, pq: Parser) {
    a in ctx.values ==> !Translate(a, ctx.values[a], pq).Bad?
  }

  predicate Joins(ctx: Context, a: Attribute, pq: Parser) {
    a in ctx.values && Translate(a, ctx.values[a], pq).Opt?
  }

  /** The options that the attributes in `keys` join. */
  ghost function Joined(ctx: Context, keys: set<Attribute>, pq: Parser): set<string> {
    set a | a in keys && Joins(ctx, a, pq) :: Translate(a, ctx.values[a], pq).option
  }

  predicate SetTrue(ctx: Context, keys: set<Attribute>, a: Attribute) {
    a in keys && a in ctx.values && ParseBool(ctx.values[a]) == Some(true)
  }

  function Provider(ctx: Context, keys: set<Attribute>): string {
    if IdentityProvider in keys && IdentityProvider in ctx.values then ctx.values[IdentityProvider] else ""
  }

  function Base(options: seq<string>, ctx: Context): seq<string> {
    if ctx.mountOptions.Some? then Merge(options, Split(ctx.mountOptions.value, ',')) else options
  }

  function AddPlain(m: Meaning, os: set<string>): Meaning {
    m.(plain := m.plain + (os - {""}))
  }

  /** The base list as it is when nothing is joined, else the sorted options of the base's
      meaning and the joined options. */
  ghost predicate OptionsAre(options: seq<string>, base: seq<string>, ctx: Context, keys: set<Attribute>, pq: Parser) {
    if forall a :: a in keys ==> !Joins(ctx, a, pq) then options == base
    else options == Sorted(Options(AddPlain(MeaningOf(base), Joined(ctx, keys, pq))))
  }

  ghost predicate ArgsAre(args: Args, base: seq<string>, ctx: Context, keys: set<Attribute>, pq: Parser) {
    && OptionsAre(args.options, base, ctx, keys, pq)
    && args.identityProvider == Provider(ctx, keys)
    && args.skipBucketAccessCheck == SetTrue(ctx, keys, SkipBucketAccessCheck)
    && args.disableMetrics == SetTrue(ctx, keys, DisableMetrics)
    && args.hostNetworkKSA == SetTrue(ctx, keys, HostNetworkPodKSA)
    && args.cloudProfiler == SetTrue(ctx, keys, CloudProfiler)
  }

  // ----- One attribute joined -----

  lemma TakePlain(m: Meaning, os: set<string>, o: string)
    requires KindOf(o) == Empty || KindOf(o) == Plain
    ensures Take(AddPlain(m, os), o) == AddPlain(m, os + {o})
  {
    assert KindOf(o) == Plain ==> o != "";
    hide KindOf;
  }

  lemma JoinedMore(ctx: Context, keys: set<Attribute>, a: Attribute, pq: Parser)
    ensures Joined(ctx, keys + {a}, pq) == Joined(ctx, keys, pq) + (if Joins(ctx, a, pq) then {Translate(a, ctx.values[a], pq).option} else {})
  {
    hide Translate;
  }

  lemma OptionsMean(options: seq<string>, base: seq<string>, ctx: Context, keys: set<Attribute>, pq: Parser)
    requires OptionsAre(options, base, ctx, keys, pq)
    ensures MeaningOf(options) == AddPlain(MeaningOf(base), Joined(ctx, keys, pq))
  {
    var m := MeaningOf(base);
    if forall a :: a in keys ==> !Joins(ctx, a, pq) {
      assert Joined(ctx, keys, pq) == {};
    } else {
      MeaningProper(NOTHING, base);
      JoinedProper(m, ctx, keys, pq);
      hide *;
      Reread(AddPlain(m, Joined(ctx, keys, pq)), options);
    }
  }

  lemma JoinedProper(m: Meaning, ctx: Context, keys: set<Attribute>, pq: Parser)
    requires Proper(m)
    ensures Proper(AddPlain(m, Joined(ctx, keys, pq)))
  {
    forall o | o in Joined(ctx, keys, pq) && o != ""
      ensures KindOf(o) == Plain
    {
      var a :| a in keys && Joins(ctx, a, pq) && o == Translate(a, ctx.values[a], pq).option;
      JoinsPlain(a, ctx.values[a], pq);
    }
    hide KindOf, Translate;
  }

  lemma JoinOne(options: seq<string>, base: seq<string>, ctx: Context, keys: set<Attribute>, a: Attribute, pq: Parser)
    requires OptionsAre(options, base, ctx, keys, pq) && Joins(ctx, a, pq)
    ensures OptionsAre(Merge(options, [Translate(a, ctx.values[a], pq).option]), base, ctx, keys + {a}, pq)
  {
    var o := Translate(a, ctx.values[a], pq).option;
    OptionsMean(options, base, ctx, keys, pq);
    JoinsPlain(a, ctx.values[a], pq);
    TakePlain(MeaningOf(base), Joined(ctx, keys, pq), o);
    JoinedMore(ctx, keys, a, pq);
    MeaningConcat(options, [o]);
    TakeAllOne(MeaningOf(options), o);
    assert exists b :: b in keys + {a} && Joins(ctx, b, pq);
    hide Joins, Translate, KindOf, MeaningOf, TakeAll, Take, Options, Joined, AddPlain, Sorted;
  }

  lemma TakeAllOne(m: Meaning, o: string)
    ensures TakeAll(m, [o]) == Take(m, o)
  {
    hide Take;
    assert [o][..0] == [];
  }

  lemma JoinNone(options: seq<string>, base: seq<string>, ctx: Context, keys: set<Attribute>, a: Attribute, pq: Parser)
    requires OptionsAre(options, base, ctx, keys, pq) && !Joins(ctx, a, pq)
    ensures OptionsAre(options, base, ctx, keys + {a}, pq)
  {
    JoinedMore(ctx, keys, a, pq);
    hide Joins, Joined;
    assert (forall b :: b in keys ==> !Joins(ctx, b, pq)) <==> (forall b :: b in keys + {a} ==> !Joins(ctx, b, pq));
  }

  // ----- The loop of the source -----

  /** One turn of the loop, for an attribute that is present. */
  method ApplyAttribute(a: Attribute, ctx: Context, args: Args, pq: Parser, ghost base: seq<string>, ghost keys: set<Attribute>)
    returns (r: Option<Args>)
    requires a in ctx.values && a !in keys && ArgsAre(args, base, ctx, keys, pq)
    ensures r.Some? <==> Good(ctx, a, pq)
    ensures r.Some? ==> ArgsAre(r.value, base, ctx, keys + {a}, pq) && r.value.multiNICIndex == args.multiNICIndex
  {
    var value := ctx.values[a];
    var request := Translate(a, value, pq);
    TranslateFlags(a, value, pq);
    FlagsMore(ctx, keys, a);
    hide Translate, OptionsAre, SetTrue, Provider, ParseBool;
    if request.Bad? {
      return None;
    }
    var args' := args;
    if request.Flag? {
      JoinNone(args.options, base, ctx, keys, a, pq);
      if a == SkipBucketAccessCheck {
        args' := args'.(skipBucketAccessCheck := request.b);
      } else if a == HostNetworkPodKSA {
        args' := args'.(hostNetworkKSA := request.b);
      } else {
        args' := args'.(cloudProfiler := request.b);
      }
      return Some(args');
    }
    if a == DisableMetrics {
      args' := args'.(disableMetrics := ParseBool(value) == Some(true));
    } else if a == IdentityProvider {
      args' := args'.(identityProvider := value);
    }
    JoinOne(args.options, base, ctx, keys, a, pq);
    var joined := JoinMountOptions(args.options, [request.option]);
    return Some(args'.(options := joined));
  }

  lemma FlagsMore(ctx: Context, keys: set<Attribute>, a: Attribute)
    ensures forall b :: SetTrue(ctx, keys + {a}, b) <==> SetTrue(ctx, keys, b) || (a == b && a in ctx.values && ParseBool(ctx.values[a]) == Some(true))
    ensures a !in keys ==> !SetTrue(ctx, keys, a)
    ensures Provider(ctx, keys + {a}) == if a == IdentityProvider && a in ctx.values then ctx.values[a] else Provider(ctx, keys)
  {
    hide ParseBool;
  }

  lemma AbsentJoinsNothing(ctx: Context, a: Attribute, pq: Parser)
    requires a !in ctx.values
    ensures !Joins(ctx, a, pq)
  {
  }

  lemma TranslateFlags(a: Attribute, v: string, pq: Parser)
    ensures Translate(a, v, pq).Flag? ==>
              (a == SkipBucketAccessCheck || a == HostNetworkPodKSA || a == CloudProfiler) && ParseBool(v) == Some(Translate(a, v, pq).b)
    ensures Translate(a, v, pq).Opt? ==> a != SkipBucketAccessCheck && a != HostNetworkPodKSA && a != CloudProfiler
  {
    hide ParseBool, Atoi, Itoa, Megabytes, Prefix, FormatBool;
  }

  lemma SkipAttribute(a: Attribute, ctx: Context, args: Args, pq: Parser, base: seq<string>, keys: set<Attribute>)
    requires a !in ctx.values && ArgsAre(args, base, ctx, keys, pq)
    ensures ArgsAre(args, base, ctx, keys + {a}, pq)
  {
    JoinNone(args.options, base, ctx, keys, a, pq) by { hide *; AbsentJoinsNothing(ctx, a, pq); }
    FlagsMore(ctx, keys, a);
    hide OptionsAre, ParseBool, SetTrue, Provider;
  }

  /** The given index, or -1 for none and for a negative one. */
  ghost predicate NicIndexIs(ctx: Context, n: int) {
    if ctx.multiNICIndex.None? then n == -1
    else exists given :: Spells(ctx.multiNICIndex.value, given) && (if given < 0 then n == -1 else n == given)
  }

  /** The loop over the attributes, in any order. */
  method ApplyAttributes(options: seq<string>, ctx: Context, pq: Parser) returns (r: Option<Args>)
    ensures r.Some? <==> forall a :: a in ATTRIBUTES ==> Good(ctx, a, pq)
    ensures r.Some? ==> ArgsAre(r.value, options, ctx, ATTRIBUTES, pq) && r.value.multiNICIndex == -1
  {
    hide ArgsAre, Good, ATTRIBUTES;
    var args := Args("", options, false, false, false, false, -1);
    NoArgs(args, options, ctx, pq);
    var rest := ATTRIBUTES;
    ghost var done: set<Attribute> := {};
    while rest != {}
      invariant rest !! done && rest + done == ATTRIBUTES
      invariant forall a :: a in done ==> Good(ctx, a, pq)
      invariant ArgsAre(args, options, ctx, done, pq) && args.multiNICIndex == -1
      decreases |rest|
    {
      var a :| a in rest;
      if a in ctx.values {
        var next := ApplyAttribute(a, ctx, args, pq, options, done);
        if next.None? {
          return None;
        }
        args := next.value;
      } else {
        AbsentIsGood(ctx, a, pq);
        SkipAttribute(a, ctx, args, pq, options, done);
      }
      rest, done := rest - {a}, done + {a};
    }
    assert done == ATTRIBUTES;
    return Some(args);
  }

  /** Whatever the iteration order, parsing succeeds exactly when every present attribute is
      good, and the arguments depend on the context alone. */
  method ParseVolumeAttributes(fuseMountOptions: seq<string>, ctx: Context, pq: Parser) returns (r: Option<Args>)
    ensures r.Some? <==> (forall a :: a in ATTRIBUTES ==> Good(ctx, a, pq)) && (ctx.multiNICIndex.None? || Atoi(ctx.multiNICIndex.value).Some?)
    ensures r.Some? ==> ArgsAre(r.value, Base(fuseMountOptions, ctx), ctx, ATTRIBUTES, pq)
    ensures r.Some? ==> NicIndexIs(ctx, r.value.multiNICIndex)
  {
    hide ArgsAre, Good, Split, Atoi, ATTRIBUTES, Spells;
    var options := fuseMountOptions;
    if ctx.mountOptions.Some? {
      options := JoinMountOptions(options, Split(ctx.mountOptions.value, ','));
    }
    r := ApplyAttributes(options, ctx, pq);
    if r.Some? && ctx.multiNICIndex.Some? {
      var idx := Atoi(ctx.multiNICIndex.value);
      if idx.None? {
        return None;
      }
      NicIrrelevant(r.value, options, ctx, pq, if idx.value < 0 then -1 else idx.value);
      AtoiSpells(ctx.multiNICIndex.value, idx.value);
      r := Some(r.value.(multiNICIndex := if idx.value < 0 then -1 else idx.value));
    }
  }

  /** Every option that an attribute joins is there, and every plain option of the base list. */
  lemma AttributeOptions(args: Args, base: seq<string>, ctx: Context, pq: Parser, a: Attribute, o: string)
    requires ArgsAre(args, base, ctx, ATTRIBUTES, pq)
    requires o != "" && ((a in ctx.values && Translate(a, ctx.values[a], pq) == Opt(o)) || (o in base && KindOf(o) == Plain))
    ensures o in args.options
  {
    var m := MeaningOf(base);
    IsAttribute(a);
    PlainOf(base, o);
    if a in ctx.values && Translate(a, ctx.values[a], pq) == Opt(o) {
      assert Joins(ctx, a, pq) && o in Joined(ctx, ATTRIBUTES, pq);
    }
    hide Translate, KindOf, Joins, SetTrue, Provider, Sorted, MeaningOf, Joined;
  }

  lemma IsAttribute(a: Attribute)
    ensures a in ATTRIBUTES
  {
  }

  /** The volume's own mount options come after the given ones: theirs is the last word. */
  lemma MountOptionsWin(options: seq<string>, ctx: Context, f: Field, v: string, before: seq<string>, after: seq<string>)
    requires ctx.mountOptions.Some? && Split(ctx.mountOptions.value, ',') == before + [Assignment(f, v)] + after
    requires forall i :: 0 <= i < |after| ==> !(KindOf(after[i]).Overwrite? && KindOf(after[i]).field == f)
    ensures MeaningOf(Base(options, ctx)).fields.Get(f) == v
  {
    var own := Split(ctx.mountOptions.value, ',');
    hide KindOf, Assignment, MeaningOf, Merge, Split;
    MergeMeans(options, own);
    assert options + own == (options + before) + [Assignment(f, v)] + after;
    LastWins(options + before, f, v, after);
  }

  lemma NoArgs(args: Args, base: seq<string>, ctx: Context, pq: Parser)
    requires args == Args("", base, false, false, false, false, -1)
    ensures ArgsAre(args, base, ctx, {}, pq)
  {
  }

  lemma AbsentIsGood(ctx: Context, a: Attribute, pq: Parser)
    requires a !in ctx.values
    ensures Good(ctx, a, pq)
  {
  }

  lemma NicIrrelevant(args: Args, base: seq<string>, ctx: Context, pq: Parser, n: int)
    requires ArgsAre(args, base, ctx, ATTRIBUTES, pq)
    ensures ArgsAre(args.(multiNICIndex := n), base, ctx, ATTRIBUTES, pq)
  {
    hide OptionsAre, Provider, SetTrue;
  }
}
