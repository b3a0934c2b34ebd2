/**
 * The in-memory service registry (ServiceRegistry/MemoryServiceRegistry.cs):
 * a table from "name + operation" to the set of instances serving it,
 * rebuilt from the configured service list, and the lookup of a service's
 * address.
 *
 * The dictionary's OrdinalIgnoreCase comparer is modelled by keying the map
 * with the ASCII-lower-cased key. A HashSet of instances is a sequence in
 * insertion order that never holds two equal instances. The health-check
 * probe of a key with several instances is HTTP and is not modelled: such a
 * lookup answers `HealthCheck` with the instances to probe.
 */
module MemoryServiceRegistry {
  import opened Wrappers
  import opened NetStrings
  import opened ServiceDefinitions

  type Registry = map<string, seq<ServiceDefinition>>

  /** GetServiceLocation's answer: null, an address, or the instances whose health decides. */
  datatype Location = NotFound | Found(address: string) | HealthCheck(instances: seq<ServiceDefinition>)

  const DefaultAddress: string := "127.0.0.1"
  const DefaultProtocol: string := "http"

  /** int.ToString() in the invariant culture. */
  function IntToString(n: int): (s: string)
    ensures |s| > 0
  {
    if n < 0 then "-" + NatToString(-n) else NatToString(n)
  }

  /** The dictionary key of name + operation under OrdinalIgnoreCase. */
  function EntryKey(name: string, operation: string): string
  {
    Lower(name + operation)
  }

  /** The configured host, or 127.0.0.1 when it is blank. */
  function Host(s: ServiceDefinition): (host: string)
    ensures !IsBlank(host)
    ensures !IsBlank(s.address) ==> host == s.address
    ensures IsBlank(s.address) ==> host == "127.0.0.1"
  {
    if IsBlank(s.address) then assert !IsWhiteSpace(DefaultAddress[0]); DefaultAddress else s.address
  }

  /** The configured protocol, or http when it is blank. */
  function Scheme(s: ServiceDefinition): (scheme: string)
    ensures !IsBlank(scheme)
    ensures !IsBlank(s.protocol) ==> scheme == s.protocol
    ensures IsBlank(s.protocol) ==> scheme == "http"
  {
    if IsBlank(s.protocol) then assert !IsWhiteSpace(DefaultProtocol[0]); DefaultProtocol else s.protocol
  }

  /** The instance stored for a configured service (lines 102-122): only address, check, name and port are set. */
  function Instance(s: ServiceDefinition): (d: ServiceDefinition)
    ensures d.name == s.name && d.port == s.port && d.check == s.check
    ensures d.address == Scheme(s) + "://" + Host(s) + ":" + IntToString(s.port)
    ensures d.operations.None? && d.protocol == ""
  {
    ServiceDefinition(Scheme(s) + "://" + Host(s) + ":" + IntToString(s.port), s.check, s.name, None, s.port, "")
  }

  /** HashSet.Add: the instance joins the bucket unless an equal one is already there. */
  function AddInstance(bucket: seq<ServiceDefinition>, d: ServiceDefinition): seq<ServiceDefinition>
  {
    if exists e :: e in bucket && IntendedEquals(e, Some(d)) then bucket else bucket + [d]
  }

  /** Add the instance under the key, creating the bucket if the key is new. */
  function Register(reg: Registry, key: string, d: ServiceDefinition): Registry
  {
    reg[key := AddInstance(if key in reg then reg[key] else [], d)]
  }

  /** The inner loop: one entry per operation of the service. */
  function RegisterOperations(reg: Registry, s: ServiceDefinition, ops: seq<string>): Registry
    decreases |ops|
  {
    if ops == [] then reg
    else Register(RegisterOperations(reg, s, ops[..|ops| - 1]), EntryKey(s.name, ops[|ops| - 1]), Instance(s))
  }

  /** The outer loop over the services; a null Operations list throws. */
  function RegisterAll(services: seq<ServiceDefinition>): Result<Registry>
    decreases |services|
  {
    if services == [] then Ok(map[])
    else match RegisterAll(services[..|services| - 1])
      case Thrown(e) => Thrown(e)
      case Ok(reg) =>
        var s := services[|services| - 1];
        if s.operations.None? then Thrown("NullReferenceException")
        else Ok(RegisterOperations(reg, s, s.operations.value))
  }

  /** The table RegisterServices builds (lines 84-127); a null list gives an empty table. */
  function BuildRegistry(services: Option<seq<ServiceDefinition>>): Result<Registry>
  {
    if services.None? then Ok(map[]) else RegisterAll(services.value)
  }

  /** GetServiceLocation (lines 36-76), up to the health check. */
  function Locate(reg: Registry, name: string, operation: string): Location
  {
    var service := if EndsWith(Lower(name), "advert") then "advert" else name;
    var key := EntryKey(service, operation);
    if key !in reg || reg[key] == [] then NotFound
    else if |reg[key]| == 1 then Found(reg[key][0].address)
    else HealthCheck(reg[key])
  }

  /** One step of the inner loop (lines 95-122): the instance for `s` joins the entry for `s.name + operation`. */
  method AddServiceInstance(registry: Registry, s: ServiceDefinition, operation: string) returns (r: Registry)
    ensures r == Register(registry, EntryKey(s.name, operation), Instance(s))
  {
    r := registry;
    var serviceEntryKey := Lower(s.name + operation);
    if serviceEntryKey !in r {
      r := r[serviceEntryKey := []];
    }
    var address := s.address;
    var protocol := s.protocol;
    if IsBlank(address) {
      address := DefaultAddress;
    }
    if IsBlank(protocol) {
      protocol := DefaultProtocol;
    }
    address := protocol + "://" + address + ":" + IntToString(s.port);
    r := r[serviceEntryKey := AddInstance(r[serviceEntryKey], ServiceDefinition(address, s.check, s.name, None, s.port, ""))];
  }

  class MemoryServiceRegistry {
    var serviceRegistry: Registry

    constructor Empty()
      ensures serviceRegistry == map[]
    {
      serviceRegistry := map[];
    }

    /** The constructor, which registers the current service list; an exception there means no registry. */
    static method Create(services: Option<seq<ServiceDefinition>>) returns (r: Result<MemoryServiceRegistry>)
      ensures r.Ok? <==> BuildRegistry(services).Ok?
      ensures r.Ok? ==> fresh(r.value) && r.value.serviceRegistry == BuildRegistry(services).value
      ensures r.Thrown? ==> r.exception == BuildRegistry(services).exception
    {
      var registry := new MemoryServiceRegistry.Empty();
      var outcome := registry.RegisterServices(services);
      if outcome.Fault? {
        return Thrown(outcome.exception);
      }
      r := Ok(registry);
    }

    /** RegisterServices: build a new table and replace the old one with it, or throw and keep the old one. */
    method RegisterServices(services: Option<seq<ServiceDefinition>>) returns (outcome: Outcome)
      modifies this
      ensures BuildRegistry(services).Ok? ==> outcome == Done && serviceRegistry == BuildRegistry(services).value
      ensures BuildRegistry(services).Thrown? ==>
        outcome == Fault(BuildRegistry(services).exception) && serviceRegistry == old(serviceRegistry)
    {
      var registry: Registry := map[];
      if services.Some? {
        var list := services.value;
        for i := 0 to |list|
          invariant RegisterAll(list[..i]) == Ok(registry)
          invariant serviceRegistry == old(serviceRegistry)
        {
          var s := list[i];
          assert list[..i + 1][..i] == list[..i];
          if s.operations.None? {
            assert RegisterAll(list[..i + 1]) == Thrown("NullReferenceException");
            ThrownPersists(list, i + 1);
            assert list[..|list|] == list;
            return Fault("NullReferenceException");
          }
          var ops := s.operations.value;
          ghost var before := registry;
          for j := 0 to |ops|
            invariant registry == RegisterOperations(before, s, ops[..j])
            invariant serviceRegistry == old(serviceRegistry)
          {
            assert ops[..j + 1][..j] == ops[..j];
            registry := AddServiceInstance(registry, s, ops[j]);
          }
          assert ops[..|ops|] == ops;
        }
        assert list[..|list|] == list;
      }
      serviceRegistry := registry;
      outcome := Done;
    }

    /** GetServiceLocation, without the health-check probe. */
    method GetServiceLocation(name: string, operation: string) returns (location: Location)
      ensures location == Locate(serviceRegistry, name, operation)
    {
      var service := name;
      if EndsWith(Lower(name), "advert") {
        service := "advert";
      }
      var serviceEntryKey := Lower(service + operation);
      if serviceEntryKey in serviceRegistry {
        var serviceInstances := serviceRegistry[serviceEntryKey];
        if |serviceInstances| > 0 {
          if |serviceInstances| > 1 {
            return HealthCheck(serviceInstances);
          }
          return Found(serviceInstances[0].address);
        }
      }
      return NotFound;
    }
  }

  /** Once a service throws, the whole registration throws with it. */
  lemma {:induction false} ThrownPersists(list: seq<ServiceDefinition>, n: nat)
    requires n <= |list| && RegisterAll(list[..n]).Thrown?
    ensures RegisterAll(list) == RegisterAll(list[..n])
    decreases |list|
  {
    if n < |list| {
      var init := list[..|list| - 1];
      assert init[..n] == list[..n];
      ThrownPersists(init, n);
    } else {
      assert list[..n] == list;
    }
  }

  // ---------------------------------------------------------------------------
  // The table's invariant: the HashSet never holds two equal instances

  predicate Distinct(bucket: seq<ServiceDefinition>)
  {
    forall i, j :: 0 <= i < j < |bucket| ==> !SameEndpoint(bucket[i], bucket[j])
  }

  /** No bucket is empty and no bucket holds two equal instances. */
  predicate WellFormed(reg: Registry)
  {
    forall k :: k in reg ==> reg[k] != [] && Distinct(reg[k])
  }

  lemma RegisterWellFormed(reg: Registry, key: string, d: ServiceDefinition)
    requires WellFormed(reg)
    ensures WellFormed(Register(reg, key, d))
  {
    var bucket := if key in reg then reg[key] else [];
    if !exists e :: e in bucket && IntendedEquals(e, Some(d)) {
      var b := bucket + [d];
      forall i, j | 0 <= i < j < |b| ensures !SameEndpoint(b[i], b[j]) {
        if j == |bucket| {
          assert b[i] in bucket;
        }
      }
    }
  }

  lemma {:induction false} RegisterOperationsWellFormed(reg: Registry, s: ServiceDefinition, ops: seq<string>)
    requires WellFormed(reg)
    ensures WellFormed(RegisterOperations(reg, s, ops))
    decreases |ops|
  {
    if ops != [] {
      RegisterOperationsWellFormed(reg, s, ops[..|ops| - 1]);
      RegisterWellFormed(RegisterOperations(reg, s, ops[..|ops| - 1]), EntryKey(s.name, ops[|ops| - 1]), Instance(s));
    }
  }

  /** Every table RegisterServices builds keeps the HashSet invariant. */
  lemma {:induction false} RegistryWellFormed(services: seq<ServiceDefinition>)
    requires RegisterAll(services).Ok?
    ensures WellFormed(RegisterAll(services).value)
    decreases |services|
  {
    if services != [] {
      var s := services[|services| - 1];
      RegistryWellFormed(services[..|services| - 1]);
      RegisterOperationsWellFormed(RegisterAll(services[..|services| - 1]).value, s, s.operations.value);
    }
  }

  // ---------------------------------------------------------------------------
  // Every (service, operation) pair is registered

  /** An instance equal to `d` is registered under `key`. */
  predicate Present(reg: Registry, key: string, d: ServiceDefinition)
  {
    key in reg && exists e :: e in reg[key] && SameEndpoint(e, d)
  }

  lemma RegisterPresent(reg: Registry, key: string, d: ServiceDefinition)
    ensures Present(Register(reg, key, d), key, d)
  {
    var bucket := if key in reg then reg[key] else [];
    if !exists e :: e in bucket && IntendedEquals(e, Some(d)) {
      assert d in Register(reg, key, d)[key];
    }
  }

  lemma RegisterKeepsPresent(reg: Registry, key: string, d: ServiceDefinition)
    ensures forall k, x :: Present(reg, k, x) ==> Present(Register(reg, key, d), k, x)
  {
    var r := Register(reg, key, d);
    forall k, x | Present(reg, k, x) ensures Present(r, k, x) {
      var e :| e in reg[k] && SameEndpoint(e, x);
      if k == key {
        assert e in r[key];
      }
    }
  }

  lemma {:induction false} RegisterOperationsKeepsPresent(reg: Registry, s: ServiceDefinition, ops: seq<string>)
    ensures forall k, x :: Present(reg, k, x) ==> Present(RegisterOperations(reg, s, ops), k, x)
    decreases |ops|
  {
    if ops != [] {
      var init := ops[..|ops| - 1];
      RegisterOperationsKeepsPresent(reg, s, init);
      RegisterKeepsPresent(RegisterOperations(reg, s, init), EntryKey(s.name, ops[|ops| - 1]), Instance(s));
    }
  }

  lemma {:induction false} RegisterOperationsPresent(reg: Registry, s: ServiceDefinition, ops: seq<string>)
    ensures forall j :: 0 <= j < |ops| ==> Present(RegisterOperations(reg, s, ops), EntryKey(s.name, ops[j]), Instance(s))
    decreases |ops|
  {
    if ops != [] {
      var init := ops[..|ops| - 1];
      var before := RegisterOperations(reg, s, init);
      RegisterOperationsPresent(reg, s, init);
      RegisterPresent(before, EntryKey(s.name, ops[|ops| - 1]), Instance(s));
      RegisterKeepsPresent(before, EntryKey(s.name, ops[|ops| - 1]), Instance(s));
      forall j | 0 <= j < |ops| - 1 ensures ops[j] == init[j] { }
    }
  }

  /** Each operation of each configured service has its instance under the key name + operation. */
  lemma {:induction false} RegistryComplete(services: seq<ServiceDefinition>)
    requires RegisterAll(services).Ok?
    ensures forall i, j :: 0 <= i < |services| && services[i].operations.Some? && 0 <= j < |services[i].operations.value| ==>
      Present(RegisterAll(services).value, EntryKey(services[i].name, services[i].operations.value[j]), Instance(services[i]))
    decreases |services|
  {
    if services != [] {
      var init := services[..|services| - 1];
      var s := services[|services| - 1];
      RegistryComplete(init);
      RegisterOperationsPresent(RegisterAll(init).value, s, s.operations.value);
      RegisterOperationsKeepsPresent(RegisterAll(init).value, s, s.operations.value);
      forall i | 0 <= i < |services| - 1 ensures services[i] == init[i] { }
    }
  }

  // ---------------------------------------------------------------------------
  // Nothing else is registered

  /** The service has an operation whose key is `key`. */
  predicate Registers(s: ServiceDefinition, key: string)
  {
    s.operations.Some? && exists op :: op in s.operations.value && EntryKey(s.name, op) == key
  }

  /** Every instance in the table was built from a configured service, under one of its keys. */
  predicate Sound(reg: Registry, services: seq<ServiceDefinition>)
  {
    forall k, e :: k in reg && e in reg[k] ==> exists s :: s in services && Registers(s, k) && e == Instance(s)
  }

  lemma {:induction false} RegisterOperationsOrigin(reg: Registry, s: ServiceDefinition, ops: seq<string>)
    ensures forall k, e :: k in RegisterOperations(reg, s, ops) && e in RegisterOperations(reg, s, ops)[k] ==>
      (k in reg && e in reg[k]) || (e == Instance(s) && exists op :: op in ops && EntryKey(s.name, op) == k)
    decreases |ops|
  {
    if ops != [] {
      var init := ops[..|ops| - 1];
      var last := ops[|ops| - 1];
      RegisterOperationsOrigin(reg, s, init);
      var before := RegisterOperations(reg, s, init);
      forall k, e | k in RegisterOperations(reg, s, ops) && e in RegisterOperations(reg, s, ops)[k]
        ensures (k in reg && e in reg[k]) || (e == Instance(s) && exists op :: op in ops && EntryKey(s.name, op) == k)
      {
        if k == EntryKey(s.name, last) && !(k in before && e in before[k]) {
          assert e == Instance(s) && last in ops;
        } else {
          assert k in before && e in before[k];
          if !(k in reg && e in reg[k]) {
            var op :| op in init && EntryKey(s.name, op) == k;
            assert op in ops;
          }
        }
      }
    }
  }

  /** The table holds only instances of configured services, each under a key of one of its operations. */
  lemma {:induction false} RegistrySound(services: seq<ServiceDefinition>)
    requires RegisterAll(services).Ok?
    ensures Sound(RegisterAll(services).value, services)
    decreases |services|
  {
    if services != [] {
      var init := services[..|services| - 1];
      var s := services[|services| - 1];
      RegistrySound(init);
      var before := RegisterAll(init).value;
      RegisterOperationsOrigin(before, s, s.operations.value);
      var reg := RegisterAll(services).value;
      forall k, e | k in reg && e in reg[k]
        ensures exists t :: t in services && Registers(t, k) && e == Instance(t)
      {
        if k in before && e in before[k] {
          var t :| t in init && Registers(t, k) && e == Instance(t);
          assert t in services;
        } else {
          assert s in services && Registers(s, k);
        }
      }
    }
  }

  // ---------------------------------------------------------------------------
  // Lookup

  lemma LowerAppend(a: string, b: string)
    ensures Lower(a + b) == Lower(a) + Lower(b)
  {
    assert forall i :: 0 <= i < |a + b| ==> Lower(a + b)[i] == (Lower(a) + Lower(b))[i];
  }

  /** Any name ending in "advert", in any case, is looked up as "advert". */
  lemma AdvertNamesNormalised(reg: Registry, name: string, operation: string)
    requires EndsWith(Lower(name), "advert")
    ensures Locate(reg, name, operation) == Locate(reg, "advert", operation)
  {
    assert Lower("advert") == "advert";
    assert !EndsWith("advert", "advert") || EndsWith(Lower("advert"), "advert");
  }

  /** The lookup ignores the case of the name and of the operation. */
  lemma LocateIgnoresCase(reg: Registry, name1: string, op1: string, name2: string, op2: string)
    requires Lower(name1) == Lower(name2) && Lower(op1) == Lower(op2)
    ensures Locate(reg, name1, op1) == Locate(reg, name2, op2)
  {
    LowerAppend(name1, op1);
    LowerAppend(name2, op2);
    LowerAppend("advert", op1);
    LowerAppend("advert", op2);
  }

  /** A key no configured operation produces is not found. */
  lemma UnregisteredNotFound(services: seq<ServiceDefinition>, name: string, operation: string)
    requires RegisterAll(services).Ok?
    requires !EndsWith(Lower(name), "advert")
    requires forall s :: s in services ==> !Registers(s, EntryKey(name, operation))
    ensures Locate(RegisterAll(services).value, name, operation) == NotFound
  {
    var reg := RegisterAll(services).value;
    var key := EntryKey(name, operation);
    RegistrySound(services);
    RegistryWellFormed(services);
    if key in reg {
      FirstTwo(reg[key]);
    }
  }

  /**
   * Two services that differ only in their blank addresses (null, "" or white
   * space in the code) store the same instance, whose address is never empty.
   */
  lemma BlankAddressesShareInstance(s: ServiceDefinition, t: ServiceDefinition)
    requires IsBlank(s.address) && IsBlank(t.address)
    requires s.(address := t.address) == t
    ensures Instance(s) == Instance(t)
    ensures Instance(s).address != ""
  {
  }

  /** A service registered alone is found at its own address under each of its operations. */
  lemma SingleServiceFound(s: ServiceDefinition, j: nat)
    requires s.operations.Some? && j < |s.operations.value|
    requires !EndsWith(Lower(s.name), "advert")
    ensures RegisterAll([s]).Ok?
    ensures Locate(RegisterAll([s]).value, s.name, s.operations.value[j]) == Found(Instance(s).address)
  {
    assert [s][..0] == [];
    assert RegisterAll([s]) == Ok(RegisterOperations(map[], s, s.operations.value));
    var reg := RegisterAll([s]).value;
    var key := EntryKey(s.name, s.operations.value[j]);
    RegistryComplete([s]);
    RegistrySound([s]);
    RegistryWellFormed([s]);
    assert Present(reg, key, Instance(s));
    var bucket := reg[key];
    forall e | e in bucket ensures e == Instance(s) {
      var t :| t in [s] && Registers(t, key) && e == Instance(t);
    }
    FirstTwo(bucket);
  }

  lemma FirstTwo(bucket: seq<ServiceDefinition>)
    ensures |bucket| > 0 ==> bucket[0] in bucket
    ensures |bucket| > 1 ==> bucket[1] in bucket
  {
  }
}
