/**
 Two histories of a network interface whose last apply Terraform rejects: a null that the plan carries
 over to a default, and an update that only the provider's own hook causes.
 */
module Rejections {
  import opened Wrappers
  import opened Apply
  import opened FieldScope
  import opened Interface
  import opened Json
  import opened Lifecycle
  import opened Router
  import opened Schema
  import Codec

  // ------------------------------------------------- a null carried over to a default

  lemma RunOfTwo(c: Contract, scope: Scope, attrs: Attributes, start: System, e: Event, f: Event)
    ensures Run(c, scope, attrs, start, [e, f]) == Next(c, scope, attrs, Next(c, scope, attrs, start, e), f)
  {
    RunSnoc(c, scope, attrs, start, [], e);
    RunSnoc(c, scope, attrs, start, [e], f);
    assert [] + [e] == [e] && [e] + [f] == [e, f];
  }

  /** A section with this proto and nothing else. */
  function Section(proto: string): Fields {
    map[SCOPE.field := JStr(proto)]
  }

  lemma SectionIsGood(proto: string)
    requires proto != ""
    ensures GoodOptions(SCOPE, ATTRIBUTES, Section(proto))
  {
    InterfaceAttributes();
    EncodedIsReadable(Attribute(StringType, Required), Codec.Str(proto));
  }

  /** What a read makes of the section: the proto, and null for a field that nothing fills in. */
  lemma SectionReads(c: Contract, attrs: Attributes, field: string, proto: string, m: Model, k: string)
    requires field in attrs && attrs[field] == Attribute(StringType, Required) && field !in c.hidden(proto)
    requires k in attrs && k != field && attrs[k] == Attribute(BoolType, OptComp) && c.defaults(proto, k).JNull?
    ensures var after := ReadBack(attrs, View(c, attrs, proto, map[field := JStr(proto)]), m);
            after[field] == Codec.Str(proto) && after[k].Null?
  {
    var obj := View(c, attrs, proto, map[field := JStr(proto)]);
    assert obj[field] == JStr(proto);
    assert k !in obj;
  }

  /** The system after an import of such a section that someone else wrote. */
  lemma ImportedSection(proto: string)
    requires proto != "" && proto !in SCOPE.known
    ensures var now := InterfaceRun(DocumentedRouter(), [Edit(Some(Section(proto))), Import]);
            && now == ReadInto(DocumentedRouter(), SCOPE, ATTRIBUTES, Section(proto), Nothing(ATTRIBUTES))
            && Get(now.state.value, SCOPE.field) == Codec.Str(proto) && Get(now.state.value, NOHOSTROUTE).Null?
  {
    var c := DocumentedRouter();
    RunOfTwo(c, SCOPE, ATTRIBUTES, System(None, map[], None), Edit(Some(Section(proto))), Import);
    InterfaceAttributes();
    SectionReads(c, ATTRIBUTES, SCOPE.field, proto, Nothing(ATTRIBUTES), NOHOSTROUTE);
  }

  lemma InterfaceAttributes()
    ensures SCOPE.field in ATTRIBUTES && ATTRIBUTES[SCOPE.field] == Attribute(StringType, Required)
    ensures NOHOSTROUTE in ATTRIBUTES && ATTRIBUTES[NOHOSTROUTE] == Attribute(BoolType, OptComp)
    ensures NOHOSTROUTE != SCOPE.field && "broadcast_flag" != SCOPE.field
  {
  }

  function ForeignImport(proto: string): seq<Event> {
    [Edit(Some(Section(proto))), Import]
  }

  /** The configuration of a switch to wireguard that leaves `nohostroute` out, and all else. */
  function BareWireguard(): Model {
    BareConfig(SCOPE, ATTRIBUTES, WIREGUARD)
  }

  lemma BareWireguardIsGood()
    ensures GoodConfig(SCOPE, ATTRIBUTES, BareWireguard()) && WIREGUARD in SCOPE.known
    ensures Get(BareWireguard(), SCOPE.field) == Codec.Str(WIREGUARD) && Get(BareWireguard(), NOHOSTROUTE).Null?
  {
    EveryProtoCanBeConfigured(WIREGUARD);
    InterfaceAttributes();
  }

  lemma ForeignImportCarriesNull(proto: string)
    requires proto != "" && proto !in SCOPE.known
    ensures GoodEvents(SCOPE, ATTRIBUTES, ForeignImport(proto))
    ensures var now := InterfaceRun(DocumentedRouter(), ForeignImport(proto));
            && now.state.Some? && CanWrite(now) && Get(now.state.value, SCOPE.field) == Codec.Str(proto)
            && !NullsHold(DocumentedRouter(), SCOPE, ATTRIBUTES, now.state, BareWireguard())
  {
    var now := InterfaceRun(DocumentedRouter(), ForeignImport(proto));
    SectionIsGood(proto);
    ImportedSection(proto);
    BareWireguardIsGood();
    OnlyForeignSwitchesTrip(now.state.value, BareWireguard());
  }

  /**
   An interface that someone else set up with a proto that uapi does not model is imported and switched
   to wireguard without `nohostroute`: the plan says null, the router answers false, and Terraform
   rejects the result.
   */
  lemma ForeignSwitchIsRejected(proto: string)
    requires proto != "" && proto !in SCOPE.known
    ensures var c, config := DocumentedRouter(), BareWireguard();
            var now := InterfaceRun(c, ForeignImport(proto));
            var plan := FullPlan(SCOPE, ATTRIBUTES, now.state, config);
            !Accepted(ATTRIBUTES, plan, PlannedTag(ATTRIBUTES, now, config),
              Next(c, SCOPE, ATTRIBUTES, now, Lifecycle.Apply(config, true)))
  {
    ContractCanBeMet();
    InterfaceFits();
    BareWireguardIsGood();
    ForeignImportCarriesNull(proto);
    CarriedNullIsRejected(DocumentedRouter(), SCOPE, ATTRIBUTES, System(None, map[], None), ForeignImport(proto),
      BareWireguard());
  }

  // ------------------------------------------------- an update that only the hook causes

  /** The section with one more option, which the resource does not model. */
  function Extended(field: string, v: string, option: string): Fields {
    map[field := JStr(v), option := JStr("x")]
  }

  /** A state in which a bare configuration left everything null but the discriminator and an empty list. */
  predicate BareState(scope: Scope, attrs: Attributes, m: Model, list: string) {
    && m.Keys == attrs.Keys && list in attrs && m[list] == Codec.Texts([])
    && forall k :: k in attrs && k != scope.field && !Computed(attrs[k].kind) ==> m[k].Null?
  }

  lemma ExtendedReadsOne(c: Contract, attrs: Attributes, field: string, v: string, option: string, prior: Codec.Value,
                         k: string)
    requires k in attrs && k != field && k != option && Writable(attrs[k].kind)
    requires prior.Null? || (prior == Codec.Texts([]) && attrs[k] == Attribute(ListType, OptComp))
    requires Schema.Read(attrs[k].kind) ==> c.defaults(v, k).JNull?
    ensures ReadOne(attrs[k], View(c, attrs, v, Extended(field, v, option)), k, prior) == prior
  {
    var obj := View(c, attrs, v, Extended(field, v, option));
    assert k !in obj;
    if Schema.Read(attrs[k].kind) {
      ReadsNothing(attrs[k], obj, k, prior);
    }
  }

  lemma ExtendedReads(c: Contract, scope: Scope, attrs: Attributes, v: string, option: string, m: Model, list: string)
    requires Fits(scope, attrs) && WellBehaved(c, scope, attrs) && option !in attrs && BareState(scope, attrs, m, list)
    requires attrs[list] == Attribute(ListType, OptComp)
    requires forall k :: k in attrs && attrs[k].kind == Required ==> k == scope.field
    ensures BareState(scope, attrs, ReadBack(attrs, View(c, attrs, v, Extended(scope.field, v, option)), m), list)
  {
    forall k | k in attrs && k != scope.field && (!Computed(attrs[k].kind) || k == list)
      ensures ReadOne(attrs[k], View(c, attrs, v, Extended(scope.field, v, option)), k, m[k]) == m[k]
    {
      ExtendedReadsOne(c, attrs, scope.field, v, option, m[k], k);
    }
  }

  lemma ExtendedKeepsDiscriminator(c: Contract, scope: Scope, attrs: Attributes, v: string, option: string, m: Model)
    requires Fits(scope, attrs) && WellBehaved(c, scope, attrs) && option !in attrs
    ensures ReadBack(attrs, View(c, attrs, v, Extended(scope.field, v, option)), m)[scope.field] == Codec.Str(v)
  {
    assert View(c, attrs, v, Extended(scope.field, v, option))[scope.field] == JStr(v);
  }

  lemma BareStateProposesNothing(scope: Scope, attrs: Attributes, m: Model, list: string, v: string)
    requires Fits(scope, attrs) && BareState(scope, attrs, m, list) && m[scope.field] == Codec.Str(v)
    ensures !Marks(attrs, Some(m), BareConfig(scope, attrs, v))
  {
    assert ProposedNew(attrs, Some(m), BareConfig(scope, attrs, v)) == m;
  }

  /** The hook alone changes the state, and the PUT drops the option that the resource does not model. */
  lemma DroppedOptionIsRejected(c: Contract, scope: Scope, attrs: Attributes, sys: System, v: string, option: string,
                                list: string)
    requires Setting(c, scope, attrs) && Invariant(c, scope, attrs, sys)
    requires GoodConfig(scope, attrs, BareConfig(scope, attrs, v)) && v in scope.known
    requires sys.state.Some? && CanWrite(sys) && BareState(scope, attrs, sys.state.value, list)
    requires sys.state.value[scope.field] == Codec.Str(v) && option in sys.etag && option !in attrs
    requires list != scope.field && Computed(attrs[list].kind) && list in scope.Excluded(v)
    ensures var config := BareConfig(scope, attrs, v);
            var plan := FullPlan(scope, attrs, sys.state, config);
            !Accepted(attrs, plan, PlannedTag(attrs, sys, config),
              Next(c, scope, attrs, sys, Lifecycle.Apply(config, true)))
  {
    var config := BareConfig(scope, attrs, v);
    BareStateProposesNothing(scope, attrs, sys.state.value, list, v);
    FullPlanIs(scope, attrs, sys.state, config, list);
    HookAloneIsAcceptedIff(c, scope, attrs, sys, config);
    assert option !in Stored(Body(attrs, FullPlan(scope, attrs, sys.state, config), false));
  }

  // ----------------------------------------------------------- the history in full

  /** A configuration that sets the discriminator and an empty list. */
  function ListConfig(scope: Scope, attrs: Attributes, v: string, list: string): Model {
    BareConfig(scope, attrs, v)[list := Codec.Texts([])]
  }

  lemma ListConfigIsValid(scope: Scope, attrs: Attributes, v: string, list: string)
    requires scope.field in attrs && list in attrs && list != scope.field
    requires ValidConfig(scope, BareConfig(scope, attrs, v))
    ensures ValidConfig(scope, ListConfig(scope, attrs, v, list))
  {
    ValidIff(scope, BareConfig(scope, attrs, v), v);
    ValidIff(scope, ListConfig(scope, attrs, v, list), v);
  }

  lemma ListConfigIsGood(scope: Scope, attrs: Attributes, v: string, list: string)
    requires GoodConfig(scope, attrs, BareConfig(scope, attrs, v))
    requires list in attrs && list != scope.field && attrs[list] == Attribute(ListType, OptComp)
    ensures GoodConfig(scope, attrs, ListConfig(scope, attrs, v, list))
  {
    var bare, config := BareConfig(scope, attrs, v), ListConfig(scope, attrs, v, list);
    assert scope.field in attrs;
    ListConfigIsValid(scope, attrs, v, list);
    assert forall k :: k in attrs && k != list ==> config[k] == bare[k];
  }

  lemma PlannedBare(scope: Scope, attrs: Attributes, v: string, list: string, plan: Model)
    requires IsPlan(scope, attrs, None, ListConfig(scope, attrs, v, list), plan)
    requires list in attrs && list != scope.field && attrs[list] == Attribute(ListType, OptComp)
    ensures plan[list] == Codec.Texts([])
    ensures forall k :: k in attrs && k != scope.field && !Computed(attrs[k].kind) ==> plan[k].Null?
  {
  }

  lemma ListConfigHolds(scope: Scope, attrs: Attributes, v: string, list: string)
    requires Fits(scope, attrs) && v != "" && list in attrs && attrs[list] == Attribute(ListType, OptComp)
    ensures ValuesHold(attrs, ListConfig(scope, attrs, v, list))
  {
  }

  /** A create with values that read back is consistent: nothing is carried over. */
  lemma CreateIsConsistent(c: Contract, scope: Scope, attrs: Attributes, config: Model, after: System)
    requires Setting(c, scope, attrs) && GoodConfig(scope, attrs, config)
        && Get(config, scope.field).text in scope.known && ValuesHold(attrs, config)
    requires after == Next(c, scope, attrs, System(None, map[], None), Lifecycle.Apply(config, true))
    ensures after.state.Some? && after.state.value.Keys == attrs.Keys
    ensures Consistent(attrs, FullPlan(scope, attrs, None, config), after.state.value)
  {
    var start := System(None, map[], None);
    assert Run(c, scope, attrs, start, []) == start;
    EveryModelledApply(c, scope, attrs, start, [], config, true);
  }

  lemma ConsistentIsBare(scope: Scope, attrs: Attributes, plan: Model, m: Model, list: string)
    requires plan.Keys == attrs.Keys == m.Keys && Consistent(attrs, plan, m) && list in attrs
        && plan[list] == Codec.Texts([])
    requires forall k :: k in attrs && k != scope.field && !Computed(attrs[k].kind) ==> plan[k].Null?
    ensures BareState(scope, attrs, m, list)
  {
  }

  /** A create with that configuration leaves the empty list in the state, and null where nothing is set. */
  lemma CreatedBare(c: Contract, scope: Scope, attrs: Attributes, v: string, list: string)
    requires Setting(c, scope, attrs) && GoodConfig(scope, attrs, ListConfig(scope, attrs, v, list)) && v in scope.known
    requires list in attrs && list != scope.field && attrs[list] == Attribute(ListType, OptComp)
    ensures var start := System(None, map[], None);
            var after := Next(c, scope, attrs, start, Lifecycle.Apply(ListConfig(scope, attrs, v, list), true));
            after.state.Some? && BareState(scope, attrs, after.state.value, list)
  {
    var start, config := System(None, map[], None), ListConfig(scope, attrs, v, list);
    var plan := FullPlan(scope, attrs, None, config);
    ListConfigHolds(scope, attrs, v, list);
    var after := Next(c, scope, attrs, start, Lifecycle.Apply(config, true));
    CreateIsConsistent(c, scope, attrs, config, after);
    FullPlanIsPlan(scope, attrs, None, config);
    PlannedBare(scope, attrs, v, list, plan);
    ConsistentIsBare(scope, attrs, plan, after.state.value, list);
  }

  lemma RunOfThree(c: Contract, scope: Scope, attrs: Attributes, start: System, e: Event, f: Event, g: Event)
    ensures Run(c, scope, attrs, start, [e, f, g])
         == Next(c, scope, attrs, Next(c, scope, attrs, Next(c, scope, attrs, start, e), f), g)
  {
    RunOfTwo(c, scope, attrs, start, e, f);
    RunSnoc(c, scope, attrs, start, [e, f], g);
    assert [e, f] + [g] == [e, f, g];
  }

  /** Create with an empty list that does not apply, an option of someone else's, and a refresh. */
  function ListHistory(scope: Scope, attrs: Attributes, v: string, option: string, list: string): seq<Event> {
    [Lifecycle.Apply(ListConfig(scope, attrs, v, list), true), Edit(Some(Extended(scope.field, v, option))), Refresh]
  }

  lemma ExtendedIsGood(scope: Scope, attrs: Attributes, v: string, option: string)
    requires Fits(scope, attrs) && v != "" && option !in attrs
    ensures GoodOptions(scope, attrs, Extended(scope.field, v, option))
  {
    EncodedIsReadable(attrs[scope.field], Codec.Str(v));
  }

  lemma ListHistoryIsGood(scope: Scope, attrs: Attributes, v: string, option: string, list: string)
    requires Fits(scope, attrs) && GoodConfig(scope, attrs, BareConfig(scope, attrs, v)) && v != "" && option !in attrs
    requires list in attrs && list != scope.field && attrs[list] == Attribute(ListType, OptComp)
    ensures GoodEvents(scope, attrs, ListHistory(scope, attrs, v, option, list))
  {
    ListConfigIsGood(scope, attrs, v, list);
    ExtendedIsGood(scope, attrs, v, option);
  }

  lemma RefreshedEdit(c: Contract, scope: Scope, attrs: Attributes, sys: System, opts: Fields)
    requires sys.state.Some?
    ensures Next(c, scope, attrs, Next(c, scope, attrs, sys, Edit(Some(opts))), Refresh)
         == ReadInto(c, scope, attrs, opts, sys.state.value)
  {
  }

  lemma RefreshedExtended(c: Contract, scope: Scope, attrs: Attributes, v: string, option: string, m: Model,
                          list: string)
    requires Fits(scope, attrs) && WellBehaved(c, scope, attrs) && option !in attrs && BareState(scope, attrs, m, list)
    requires attrs[list] == Attribute(ListType, OptComp)
    requires forall k :: k in attrs && attrs[k].kind == Required ==> k == scope.field
    ensures var now := ReadInto(c, scope, attrs, Extended(scope.field, v, option), m);
            BareState(scope, attrs, now.state.value, list) && now.state.value[scope.field] == Codec.Str(v)
  {
    assert Discriminator(scope.field, Extended(scope.field, v, option)) == v;
    ExtendedReads(c, scope, attrs, v, option, m, list);
    ExtendedKeepsDiscriminator(c, scope, attrs, v, option, m);
  }

  lemma AfterListHistory(c: Contract, scope: Scope, attrs: Attributes, v: string, option: string, list: string)
    requires Setting(c, scope, attrs) && GoodConfig(scope, attrs, BareConfig(scope, attrs, v)) && v in scope.known
    requires forall k :: k in attrs && attrs[k].kind == Required ==> k == scope.field
    requires list in attrs && list != scope.field && attrs[list] == Attribute(ListType, OptComp) && option !in attrs
    ensures var now := Run(c, scope, attrs, System(None, map[], None), ListHistory(scope, attrs, v, option, list));
            && now.state.Some? && BareState(scope, attrs, now.state.value, list)
            && now.state.value[scope.field] == Codec.Str(v)
            && now.etag == Extended(scope.field, v, option) && now.router == Some(now.etag)
  {
    var start := System(None, map[], None);
    var events := ListHistory(scope, attrs, v, option, list);
    ListConfigIsGood(scope, attrs, v, list);
    RunOfThree(c, scope, attrs, start, events[0], events[1], events[2]);
    CreatedBare(c, scope, attrs, v, list);
    var created := Next(c, scope, attrs, start, events[0]);
    RefreshedEdit(c, scope, attrs, created, Extended(scope.field, v, option));
    RefreshedExtended(c, scope, attrs, v, option, created.state.value, list);
  }

  /**
   Removing an empty list that does not apply from the configuration, while the router holds an option
   that the resource does not model: Terraform proposes nothing, so the ETag is planned as it was; the
   hook plans null for the list, so the section is replaced; and the answer carries another ETag.
   */
  lemma ListRemovalIsRejected(c: Contract, scope: Scope, attrs: Attributes, v: string, option: string, list: string)
    requires Setting(c, scope, attrs) && GoodConfig(scope, attrs, BareConfig(scope, attrs, v)) && v in scope.known
        && v != ""
    requires forall k :: k in attrs && attrs[k].kind == Required ==> k == scope.field
    requires list in attrs && list != scope.field && attrs[list] == Attribute(ListType, OptComp)
        && list in scope.Excluded(v)
    requires option !in attrs
    ensures var config := BareConfig(scope, attrs, v);
            var now := Run(c, scope, attrs, System(None, map[], None), ListHistory(scope, attrs, v, option, list));
            var plan := FullPlan(scope, attrs, now.state, config);
            !Accepted(attrs, plan, PlannedTag(attrs, now, config),
              Next(c, scope, attrs, now, Lifecycle.Apply(config, true)))
  {
    var start := System(None, map[], None);
    var events := ListHistory(scope, attrs, v, option, list);
    ListHistoryIsGood(scope, attrs, v, option, list);
    RunKeepsInvariant(c, scope, attrs, start, events);
    AfterListHistory(c, scope, attrs, v, option, list);
    DroppedOptionIsRejected(c, scope, attrs, Run(c, scope, attrs, start, events), v, option, list);
  }

  lemma DhcpExcludesAddresses()
    ensures "dhcp" in SCOPE.known && "addresses" in SCOPE.Excluded("dhcp")
  {
    ExcludedMembers(SCOPE.rules, "dhcp", "addresses");
    assert "dhcp" in SCOPE.rules[7].values && "addresses" in SCOPE.rules[7].fields;
  }

  lemma AddressesIsAList()
    ensures "addresses" in ATTRIBUTES && ATTRIBUTES["addresses"] == Attribute(ListType, OptComp)
        && "addresses" != SCOPE.field
    ensures "vendorid" !in ATTRIBUTES
  {
  }

  /** The history on the interface: proto dhcp, `addresses = []`, and a `vendorid` that LuCI wrote. */
  lemma InterfaceListRemovalIsRejected()
    ensures var c, config := DocumentedRouter(), BareConfig(SCOPE, ATTRIBUTES, "dhcp");
            var now := InterfaceRun(c, ListHistory(SCOPE, ATTRIBUTES, "dhcp", "vendorid", "addresses"));
            var plan := FullPlan(SCOPE, ATTRIBUTES, now.state, config);
            !Accepted(ATTRIBUTES, plan, PlannedTag(ATTRIBUTES, now, config),
              Next(c, SCOPE, ATTRIBUTES, now, Lifecycle.Apply(config, true)))
  {
    ContractCanBeMet();
    InterfaceFits();
    EveryProtoCanBeConfigured("dhcp");
    DhcpExcludesAddresses();
    AddressesIsAList();
    forall name | name in ATTRIBUTES && ATTRIBUTES[name].kind == Required
      ensures name == SCOPE.field
    {
      OnlyProtoIsRequired(name);
    }
    ListRemovalIsRejected(DocumentedRouter(), SCOPE, ATTRIBUTES, "dhcp", "vendorid", "addresses");
  }
}
