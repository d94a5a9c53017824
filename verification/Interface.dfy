/**
 The network interface (internal/provider/network_interface_resource.go): its real scope table and its
 attributes, put into the general results.
 */
module Interface {
  import opened Wrappers
  import opened Apply
  import Codec
  import opened FieldScope
  import opened Json
  import opened Lifecycle
  import opened Patch
  import opened Router
  import opened Schema

  const SCOPE: Scope := Scope(
    "proto", ["static", "dhcp", "dhcpv6", "pppoe", "none", "ppp", "wwan", "wireguard"],
    [ScopeRule(["dhcp", "dhcpv6", "pppoe", "none", "ppp", "wwan", "wireguard"],
               ["broadcast", "gateway", "ip6addrs", "ip6gw", "ipaddrs", "netmask"]),
     ScopeRule(["dhcp", "pppoe", "none", "ppp", "wwan"], ["ip6prefix"]),
     ScopeRule(["static", "dhcpv6", "pppoe", "none", "ppp", "wwan", "wireguard"], ["broadcast_flag", "hostname"]),
     ScopeRule(["static", "pppoe", "none", "ppp", "wwan", "wireguard"], ["clientid"]),
     ScopeRule(["static", "dhcp", "pppoe", "none", "ppp", "wwan", "wireguard"], ["reqaddress"]),
     ScopeRule(["static", "dhcp", "none", "wwan", "wireguard"], ["reqprefix", "sourcefilter"]),
     ScopeRule(["static", "none", "wireguard"], ["peerdns"]),
     ScopeRule(["static", "dhcp", "dhcpv6", "pppoe", "none", "ppp", "wwan"],
               ["addresses", "listen_port", "nohostroute", "private_key"])])

  const NAMES: set<string> := {
    "addresses", "auto", "broadcast", "broadcast_flag", "clientid", "defaultroute", "delegate", "device", "disabled",
    "dns", "gateway", "has_private_key", "hostname", "ip4table", "ip6addrs", "ip6assign", "ip6class", "ip6gw",
    "ip6hint", "ip6ifaceid", "ip6prefix", "ip6table", "ip6weight", "ipaddr", "ipaddrs", "listen_port", "metric",
    "mtu", "netmask", "nohostroute", "peerdns", "private_key", "proto", "reqaddress", "reqprefix", "sourcefilter"}

  function AttributeOf(name: string): Attribute {
    if name == "proto" then Attribute(StringType, Required)
    else if name == "has_private_key" then Attribute(BoolType, ComputedBool)
    else if name == "ipaddr" then Attribute(StringType, ComputedString)
    else if name == "private_key" then Attribute(StringType, WriteOnly)
    else if name == "ip6prefix" then Attribute(ListType, OptClear)
    else if name in {"broadcast", "gateway", "ip6gw", "netmask"} then Attribute(StringType, OptClear)
    else if name in {"addresses", "dns", "ip6addrs", "ip6class", "ipaddrs"} then Attribute(ListType, OptComp)
    else if name in {"ip6assign", "ip6weight", "listen_port", "metric", "mtu"} then Attribute(Int64Type, OptComp)
    else if name in {"auto", "broadcast_flag", "defaultroute", "delegate", "disabled", "nohostroute", "peerdns",
                     "sourcefilter"} then Attribute(BoolType, OptComp)
    else Attribute(StringType, OptComp)
  }

  const ATTRIBUTES: Attributes := map name | name in NAMES :: AttributeOf(name)

  /** Every rule switches on values that the enum lists. */
  predicate NamesOnlyKnown(scope: Scope) {
    forall i, v :: 0 <= i < |scope.rules| && v in scope.rules[i].values ==> v in scope.known
  }

  lemma UnknownValueTakesAll(scope: Scope, v: string)
    requires NamesOnlyKnown(scope) && v !in scope.known
    ensures scope.Excluded(v) == []
  {
    if scope.Excluded(v) != [] {
      ExcludedMembers(scope.rules, v, scope.Excluded(v)[0]);
    }
  }

  /** A field that a rule can null: an attribute that a caller can set. */
  predicate CanBeNulled(name: string) {
    name in NAMES && name != "proto" && name != "has_private_key" && name != "ipaddr"
  }

  lemma RuleFieldsCanBeNulled(i: nat, name: string)
    requires i < |SCOPE.rules| && name in SCOPE.rules[i].fields
    ensures CanBeNulled(name)
  {
  }

  lemma {:induction false} ScopedIsInARule(rules: seq<ScopeRule>, name: string)
    requires name in ScopedBy(rules)
    ensures exists i :: 0 <= i < |rules| && name in rules[i].fields
    decreases |rules|
  {
    if name !in rules[|rules| - 1].fields {
      ScopedIsInARule(rules[..|rules| - 1], name);
      var i :| 0 <= i < |rules| - 1 && name in rules[..|rules| - 1][i].fields;
      assert rules[i] == rules[..|rules| - 1][i];
    }
  }

  lemma ScopedCanBeNulled(name: string)
    requires name in SCOPE.Scoped()
    ensures CanBeNulled(name)
  {
    ScopedIsInARule(SCOPE.rules, name);
    var i :| 0 <= i < |SCOPE.rules| && name in SCOPE.rules[i].fields;
    RuleFieldsCanBeNulled(i, name);
  }

  lemma TableNamesOnlyKnown()
    ensures NamesOnlyKnown(SCOPE)
  {
  }

  /** The table and the attributes of the interface meet the demands that the general results make on them. */
  lemma InterfaceFits()
    ensures Fits(SCOPE, ATTRIBUTES)
    ensures forall v :: v !in SCOPE.known ==> SCOPE.Excluded(v) == []
  {
    forall name | name in SCOPE.Scoped()
      ensures name in ATTRIBUTES && Writable(ATTRIBUTES[name].kind) && name != SCOPE.field
    {
      ScopedCanBeNulled(name);
    }
    TableNamesOnlyKnown();
    forall v | v !in SCOPE.known
      ensures SCOPE.Excluded(v) == []
    {
      UnknownValueTakesAll(SCOPE, v);
    }
  }

  // ------------------------------------------------- the router that the provider's tests describe

  /**
   A modelled proto hides what the table excludes, and any other proto only the dhcp reading of
   `broadcast`. An unset `nohostroute` reads false on wireguard. `has_private_key` is an answer about the
   stored key, and `ipaddr` the first of the addresses.
   */
  function DocumentedRouter(): Contract {
    Contract(Hides, FillIn, Derive)
  }

  function Hides(proto: string): set<string> {
    if proto in SCOPE.known then set name | name in SCOPE.Excluded(proto) else {"broadcast_flag"}
  }

  const NOHOSTROUTE: string := "nohostroute"
  const WIREGUARD: string := "wireguard"

  function FillIn(proto: string, name: string): Json {
    if name == NOHOSTROUTE && proto == WIREGUARD then JBool(false) else JNull
  }

  function Derive(opts: Fields, name: string): Json {
    if name == "has_private_key" then
      if Discriminator(SCOPE.field, opts) == WIREGUARD then JBool("private_key" in opts) else JNull
    else
      var addresses := Member(opts, "ipaddrs");
      if addresses.JArr? && addresses.items != [] && "ipaddrs" !in Hides(Discriminator(SCOPE.field, opts))
      then addresses.items[0] else JNull
  }

  lemma FilledInIsReadable(proto: string, name: string)
    requires name in ATTRIBUTES && !FillIn(proto, name).JNull?
    ensures ATTRIBUTES[name] == Attribute(BoolType, OptComp) && name != SCOPE.field
    ensures Readable(ATTRIBUTES[name], FillIn(proto, name))
  {
    assert AttributeOf(NOHOSTROUTE) == Attribute(BoolType, OptComp);
  }

  /** That router meets the contract: the results about the interface are about it. */
  lemma ContractCanBeMet()
    ensures WellBehaved(DocumentedRouter(), SCOPE, ATTRIBUTES)
  {
    InterfaceFits();
    var c := DocumentedRouter();
    forall v
      ensures SCOPE.field !in c.hidden(v)
    {
      ScopedMembers(SCOPE.rules, v, SCOPE.field);
    }
    forall v, name | name in ATTRIBUTES && !c.defaults(v, name).JNull?
      ensures ATTRIBUTES[name] == Attribute(BoolType, OptComp) && name != SCOPE.field
      ensures Readable(ATTRIBUTES[name], c.defaults(v, name))
    {
      FilledInIsReadable(v, name);
    }
  }

  lemma OnlyWireguardTakesNohostroute(proto: string)
    ensures NOHOSTROUTE in SCOPE.Excluded(proto) <==> proto in SCOPE.known && proto != WIREGUARD
  {
    ExcludedMembers(SCOPE.rules, proto, NOHOSTROUTE);
    assert NOHOSTROUTE in SCOPE.rules[7].fields;
    forall i | 0 <= i < |SCOPE.rules| && NOHOSTROUTE in SCOPE.rules[i].fields
      ensures i == 7
    {
    }
  }

  lemma KeptNohostroute(m: Model, config: Model)
    requires Get(config, SCOPE.field).Str? && Get(m, SCOPE.field).Str?
    ensures KeptNull(SCOPE, ATTRIBUTES, Some(m), config, NOHOSTROUTE) && Get(config, SCOPE.field).text == WIREGUARD <==>
      && Get(config, SCOPE.field).text == WIREGUARD && Get(m, SCOPE.field).text !in SCOPE.known
      && Get(config, NOHOSTROUTE).Null? && Get(m, NOHOSTROUTE).Null?
  {
    OnlyWireguardTakesNohostroute(Get(config, SCOPE.field).text);
    OnlyWireguardTakesNohostroute(Get(m, SCOPE.field).text);
    assert AttributeOf(NOHOSTROUTE) == Attribute(BoolType, OptComp) && NOHOSTROUTE in ATTRIBUTES;
    assert WIREGUARD in SCOPE.known;
  }

  /**
   On that router a null is carried over to a default exactly in a switch from a proto that uapi does
   not model to wireguard, with `nohostroute` neither configured nor held: no rule names the old proto,
   so the field is no entering one.
   */
  lemma OnlyForeignSwitchesTrip(m: Model, config: Model)
    requires Get(config, SCOPE.field).Str? && Get(m, SCOPE.field).Str?
    ensures NullsHold(DocumentedRouter(), SCOPE, ATTRIBUTES, Some(m), config) <==>
      !(&& Get(config, SCOPE.field).text == WIREGUARD && Get(m, SCOPE.field).text !in SCOPE.known
        && Get(config, NOHOSTROUTE).Null? && Get(m, NOHOSTROUTE).Null?)
  {
    var c := DocumentedRouter();
    KeptNohostroute(m, config);
    forall name | name in ATTRIBUTES
      ensures NullHolds(c, SCOPE, ATTRIBUTES, Some(m), config, name) <==>
        !(name == NOHOSTROUTE && Get(config, SCOPE.field).text == WIREGUARD
          && KeptNull(SCOPE, ATTRIBUTES, Some(m), config, name))
    {
    }
    assert NOHOSTROUTE in ATTRIBUTES;
  }

  /** A configuration that sets the discriminator and nothing else. */
  function BareConfig(scope: Scope, attrs: Attributes, v: string): Model {
    map k | k in attrs :: if k == scope.field then Codec.Str(v) else Codec.Null
  }

  lemma BareConfigIsGood(scope: Scope, attrs: Attributes, v: string)
    requires Fits(scope, attrs) && v != ""
    requires forall k :: k in attrs && attrs[k].kind == Required ==> k == scope.field
    ensures GoodConfig(scope, attrs, BareConfig(scope, attrs, v))
  {
    var config := BareConfig(scope, attrs, v);
    ValidIff(scope, config, v);
    forall f | f in scope.Excluded(v)
      ensures !Refusable(Get(config, f))
    {
      ScopedMembers(scope.rules, v, f);
    }
  }

  lemma OnlyProtoIsRequired(name: string)
    requires AttributeOf(name).kind == Required
    ensures name == SCOPE.field
  {
  }

  /** Every proto has an acceptable configuration of the interface: it is enough to set nothing else. */
  lemma EveryProtoCanBeConfigured(proto: string)
    requires proto != ""
    ensures GoodConfig(SCOPE, ATTRIBUTES, BareConfig(SCOPE, ATTRIBUTES, proto))
  {
    InterfaceFits();
    forall name | name in ATTRIBUTES && ATTRIBUTES[name].kind == Required
      ensures name == SCOPE.field
    {
      OnlyProtoIsRequired(name);
    }
    BareConfigIsGood(SCOPE, ATTRIBUTES, proto);
  }

  /** A life of an interface that starts with neither a state nor a section. */
  function InterfaceRun(c: Contract, events: seq<Event>): System {
    Run(c, SCOPE, ATTRIBUTES, System(None, map[], None), events)
  }

  /**
   A network interface from nothing, through any creates, updates, proto switches, refreshes, imports
   and edits by others. An apply on a section that is gone or was changed since the state read it changes
   nothing. Any other comes to what the general results say for a proto that uapi models, and for an
   update that keeps another one; a create with such a proto and a switch to it are refused.
   */
  lemma InterfaceApplies(c: Contract, events: seq<Event>, config: Model, valid: bool)
    requires WellBehaved(c, SCOPE, ATTRIBUTES) && GoodEvents(SCOPE, ATTRIBUTES, events)
    requires GoodConfig(SCOPE, ATTRIBUTES, config)
    ensures var now := InterfaceRun(c, events);
            var after := Next(c, SCOPE, ATTRIBUTES, now, Lifecycle.Apply(config, valid));
            ApplyResult(c, SCOPE, ATTRIBUTES, now, config, valid, after)
  {
    InterfaceFits();
    EveryApply(c, SCOPE, ATTRIBUTES, System(None, map[], None), events, config, valid);
  }

  // -------------------------------------------------------------- one report of two

  /** A static interface with the two dhcp fields `clientid` and `hostname`. */
  function TwoRefused(): Model {
    BareConfig(SCOPE, ATTRIBUTES, "static")["clientid" := Codec.Str("c")]["hostname" := Codec.Str("h")]
  }

  lemma StaticExcludesBoth()
    ensures "clientid" in SCOPE.Excluded("static") && "hostname" in SCOPE.Excluded("static")
  {
    ExcludedMembers(SCOPE.rules, "static", "clientid");
    ExcludedMembers(SCOPE.rules, "static", "hostname");
    assert "static" in SCOPE.rules[2].values && "hostname" in SCOPE.rules[2].fields;
    assert "static" in SCOPE.rules[3].values && "clientid" in SCOPE.rules[3].fields;
  }

  /** uapi would refuse both, and one run of validateConfig names only one of them. */
  lemma OneOfTwoIsReported()
    ensures var config := TwoRefused();
            exists f :: f in Refused(SCOPE, config) && f !in Reported(SCOPE, config)
  {
    var config := TwoRefused();
    StaticExcludesBoth();
    InterfaceAttributesOfTwo();
    AllReportedIff(SCOPE, config, "static");
    assert Refusable(Get(config, "clientid")) && Refusable(Get(config, "hostname"));
  }

  lemma InterfaceAttributesOfTwo()
    ensures "clientid" != "hostname" && Get(TwoRefused(), SCOPE.field) == Codec.Str("static")
    ensures Get(TwoRefused(), "clientid") == Codec.Str("c") && Get(TwoRefused(), "hostname") == Codec.Str("h")
  {
    assert SCOPE.field in ATTRIBUTES;
  }
}
