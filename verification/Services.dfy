/** The Registry: contracts, abstracted to keys, and the implementations provided for them. */
module Services {
  import opened Basics

  type Contract = nat

  /** A non-nil implementation. */
  type Impl = nat

  datatype ServiceError = NilRegistry | NilImplementation | DuplicateProvider | ProviderNotFound

  datatype Required = Found(impl: Impl) | Missing(error: ServiceError)

  datatype Revoked = Revoked(removed: bool) | NotRevoked(error: ServiceError)

  type Table = map<Contract, Impl>

  function Lookup(table: Table, c: Contract): Required {
    if c in table then Found(table[c]) else Missing(ProviderNotFound)
  }

  class Registry {
    var services: Table

    constructor ()
      ensures services == map[]
    {
      services := map[];
    }
  }

  function FrameOf(r: Registry?): set<Registry> {
    if r == null then {} else {r}
  }

  /** impl is None for a nil implementation. */
  method Provide(r: Registry?, c: Contract, impl: Option<Impl>) returns (err: Option<ServiceError>)
    modifies FrameOf(r)
    ensures r == null ==> err == Some(NilRegistry)
    ensures r != null ==>
      err == (if impl.None? then Some(NilImplementation) else if c in old(r.services) then Some(DuplicateProvider)
        else None)
    ensures r != null && err.Some? ==> r.services == old(r.services)
    ensures r != null && err.None? ==>
      Lookup(r.services, c) == Found(impl.value) && r.services - {c} == old(r.services)
    ensures r != null && impl.Some? ==> r.services == Provided(old(r.services), c, impl.value)
  {
    if r == null {
      return Some(NilRegistry);
    }
    if impl.None? {
      return Some(NilImplementation);
    }
    if c in r.services {
      return Some(DuplicateProvider);
    }
    r.services := r.services[c := impl.value];
    return None;
  }

  method Require(r: Registry?, c: Contract) returns (answer: Required)
    ensures answer == if r == null then Missing(NilRegistry) else Lookup(r.services, c)
  {
    if r == null {
      return Missing(NilRegistry);
    }
    if c !in r.services {
      return Missing(ProviderNotFound);
    }
    return Found(r.services[c]);
  }

  method Revoke(r: Registry?, c: Contract) returns (answer: Revoked)
    modifies FrameOf(r)
    ensures answer == if r == null then NotRevoked(NilRegistry) else Revoked(Lookup(old(r.services), c).Found?)
    ensures r != null ==> Lookup(r.services, c) == Missing(ProviderNotFound) && r.services == old(r.services) - {c}
  {
    if r == null {
      return NotRevoked(NilRegistry);
    }
    if c !in r.services {
      assert r.services - {c} == r.services;
      return Revoked(false);
    }
    r.services := r.services - {c};
    return Revoked(true);
  }

  /** Provide on a table: refused when the contract is taken, as Registry.Provide refuses it. */
  function Provided(table: Table, c: Contract, impl: Impl): Table {
    if c in table then table else table[c := impl]
  }

  /** Provide and Revoke under other contracts are invisible to Require. */
  lemma ContractsAreIndependent(table: Table, c: Contract, d: Contract, impl: Impl)
    requires c != d
    ensures Lookup(Provided(table, d, impl), c) == Lookup(table, c)
    ensures Lookup(table - {d}, c) == Lookup(table, c)
  {
  }
}
