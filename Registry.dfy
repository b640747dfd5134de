/** The registry object of index.js: `join` (descriptor defaulting, key
    derivation, first write), the per-registration renewal loop, and
    `leave`. The store is seen through the commands the registry sends it
    and the replies it gets back. */
module Registry {
  import opened Wrappers
  import Js
  import Config
  import Keys
  import Listing
  import opened Bookkeeping

  /** Lease length in seconds (`EXPIRE key 10`). */
  const LeaseTtl := 10
  /** Delay in milliseconds before the next renewal after a good write. */
  const RenewInterval := 5000
  /** Delay in milliseconds before the next renewal after a failed write. */
  const BackoffInterval := 15000

  /** What the registry asks of the store. `SetWithExpiry` is the
      transaction `MULTI; SET key value; EXPIRE key ttl; EXEC`. */
  datatype Command =
    | SetWithExpiry(key: string, value: string, ttl: nat)
    | Delete(key: string)

  /** The store's answer to one transaction. */
  datatype Reply = Ok | Err(error: Listing.StoreError)

  /** The timer delay a renewal reply leads to. */
  function RenewDelay(reply: Reply): (delay: nat)
    ensures reply.Ok? ==> delay == RenewInterval
    ensures reply.Err? ==> delay == BackoffInterval
    ensures delay < LeaseTtl * 1000 <==> reply.Ok?
  {
    if reply.Err? then BackoffInterval else RenewInterval
  }

  /** The fields of a service descriptor the registry reads or writes;
      `meta` stands for every other caller-supplied field. */
  datatype Descriptor = Descriptor(
    name: Option<string>,
    hostname: Option<string>,
    host: Option<string>,
    url: Option<string>,
    port: Option<int>,
    protocol: Option<string>,
    meta: map<string, string>)

  /** `hostname + ':' + port` when the port is truthy, else `hostname`. */
  function DefaultHost(hostname: string, port: Option<int>): (host: string)
    ensures hostname <= host
    ensures Js.NumTruthy(port) ==> host == hostname + ":" + Js.Decimal(port.value)
    ensures host == hostname <==> !Js.NumTruthy(port)
  {
    if Js.NumTruthy(port) then hostname + ":" + Js.Decimal(port.value) else hostname
  }

  /** `(protocol || 'http') + '://' + host`. */
  function DefaultUrl(protocol: Option<string>, host: string): (url: string)
    ensures Js.Or(protocol, "http") + "://" <= url
    ensures |url| == |Js.Or(protocol, "http")| + 3 + |host|
    ensures |url| >= |host| && url[|url| - |host|..] == host
    ensures !Js.Truthy(protocol) ==> url == "http://" + host
  {
    Js.Or(protocol, "http") + "://" + host
  }

  /** A descriptor as `join` leaves it: the name is always the join name;
      hostname, host and url supplied by the caller are kept, and missing
      ones are defaulted in that order, each from the one before. */
  function Filled(d: Descriptor, joinName: string, localAddress: string): (r: Descriptor)
    ensures r.name == Some(joinName)
    ensures Js.Truthy(d.hostname) ==> r.hostname == d.hostname
    ensures !Js.Truthy(d.hostname) ==> r.hostname == Some(localAddress)
    ensures Js.Truthy(d.host) ==> r.host == d.host
    ensures !Js.Truthy(d.host) ==> r.host == Some(DefaultHost(r.hostname.value, d.port))
    ensures Js.Truthy(d.url) ==> r.url == d.url
    ensures !Js.Truthy(d.url) ==> r.url == Some(DefaultUrl(d.protocol, r.host.value))
    ensures Js.Truthy(r.url)
    ensures r.port == d.port && r.protocol == d.protocol && r.meta == d.meta
  {
    var hostname := Js.Or(d.hostname, localAddress);
    var host := if Js.Truthy(d.host) then d.host.value else DefaultHost(hostname, d.port);
    var url := if Js.Truthy(d.url) then d.url.value else DefaultUrl(d.protocol, host);
    d.(name := Some(joinName), hostname := Some(hostname), host := Some(host), url := Some(url))
  }

  /** Joining again with the descriptor a join returned changes nothing,
      so it derives the same storage key: re-registration is idempotent. */
  lemma FilledIdempotent(d: Descriptor, joinName: string, localAddress: string, ns: string, hash: string -> string)
    ensures Filled(Filled(d, joinName, localAddress), joinName, localAddress) == Filled(d, joinName, localAddress)
    ensures var once := Filled(d, joinName, localAddress);
      Keys.StorageKey(ns, hash, joinName, Filled(once, joinName, localAddress).url.value)
        == Keys.StorageKey(ns, hash, joinName, once.url.value)
  {
  }

  /** The caller's `service` argument: omitted (or a callback in its
      place), a bare port number, or a descriptor object. */
  datatype ServiceArg = Absent | Port(port: int) | Given(service: Service)

  function ArgObjects(arg: ServiceArg): set<object> {
    if arg.Given? then {arg.service} else {}
  }

  /** The descriptor `join` starts from: `{}`, `{port: n}` or the object. */
  function Initial(arg: ServiceArg): (d: Descriptor)
    reads ArgObjects(arg)
    ensures arg.Given? ==> d == arg.service.Snapshot()
    ensures !arg.Given? ==>
      && d.name == None && d.hostname == None && d.host == None && d.url == None
      && d.protocol == None && d.meta == map[]
    ensures arg.Absent? ==> d.port == None
    ensures arg.Port? ==> d.port == Some(arg.port)
  {
    match arg
    case Absent => Descriptor(None, None, None, None, None, None, map[])
    case Port(p) => Descriptor(None, None, None, None, Some(p), None, map[])
    case Given(s) => s.Snapshot()
  }

  /** A service descriptor object, which `join` completes in place. */
  class Service {
    var name: Option<string>
    var hostname: Option<string>
    var host: Option<string>
    var url: Option<string>
    var port: Option<int>
    var protocol: Option<string>
    var meta: map<string, string>

    constructor (d: Descriptor)
      ensures Snapshot() == d
    {
      name, hostname, host, url := d.name, d.hostname, d.host, d.url;
      port, protocol, meta := d.port, d.protocol, d.meta;
    }

    function Snapshot(): Descriptor
      reads this
    {
      Descriptor(name, hostname, host, url, port, protocol, meta)
    }

    /** The four assignments at the top of `join`. */
    method FillDefaults(joinName: string, localAddress: string)
      modifies this
      ensures Snapshot() == Filled(old(Snapshot()), joinName, localAddress)
    {
      name := Some(joinName);
      hostname := Some(Js.Or(hostname, localAddress));
      host := Some(if Js.Truthy(host) then host.value else DefaultHost(hostname.value, port));
      url := Some(if Js.Truthy(url) then url.value else DefaultUrl(protocol, host.value));
    }
  }

  /** One registration: its name, its storage key, the serialized
      descriptor it keeps writing, whether it has been left, and the delay
      of its armed renewal timer (None before the first write succeeds and
      after the timer is cleared). */
  class Entry {
    const name: string
    const key: string
    const value: string
    var destroyed: bool
    var timeout: Option<nat>

    constructor (name: string, key: string, value: string)
      ensures this.name == name && this.key == key && this.value == value
      ensures !destroyed && timeout == None
    {
      this.name, this.key, this.value := name, key, value;
      destroyed, timeout := false, None;
    }

    /** `update`: write the same value under the same key with a fresh lease. */
    function Update(): (c: Command)
      ensures c.SetWithExpiry? && c.key == key && c.value == value && c.ttl == LeaseTtl
      ensures RenewInterval < c.ttl * 1000 < BackoffInterval
    {
      SetWithExpiry(key, value, LeaseTtl)
    }

    /** `loop`: a timer has fired; the renewal write is sent and, when its
        reply arrives, the timer is re-armed (5000 after success, 15000
        after an error) unless the registration has been left meanwhile. */
    method Renew(reply: Reply) returns (sent: Command)
      modifies this
      ensures sent == SetWithExpiry(key, value, LeaseTtl)
      ensures destroyed == old(destroyed)
      ensures old(destroyed) ==> timeout == old(timeout)
      ensures !old(destroyed) ==> timeout == Some(RenewDelay(reply))
    {
      sent := Update();
      if destroyed {
        return;
      }
      timeout := Some(RenewDelay(reply));
    }
  }

  /** The delete commands for a work list, one per entry, in order. */
  function Deletes(work: seq<Entry>): (cmds: seq<Command>)
    ensures |cmds| == |work|
    ensures forall i :: 0 <= i < |work| ==> cmds[i] == Delete(work[i].key)
  {
    seq(|work|, i requires 0 <= i < |work| => Delete(work[i].key))
  }

  lemma DeletesSnoc(work: seq<Entry>, next: Entry)
    ensures Deletes(work + [next]) == Deletes(work) + [Delete(next.key)]
  {
  }

  /** Every entry of the list has been left: destroyed, timer cleared. */
  ghost predicate AllLeft(es: seq<Entry>)
    reads es
  {
    forall i :: 0 <= i < |es| ==> es[i].destroyed && es[i].timeout == None
  }

  /** `services.filter(entry => entry.name === name)`. */
  function Named(s: seq<Entry>, name: string): (r: seq<Entry>)
    ensures |r| <= |s|
    ensures forall i :: 0 <= i < |r| ==> r[i] in s && r[i].name == name
    ensures forall i :: 0 <= i < |s| ==> (s[i] in r <==> s[i].name == name)
    decreases |s|
  {
    if s == [] then []
    else (if s[0].name == name then [s[0]] else []) + Named(s[1..], name)
  }

  /** The filter keeps tracking order: filtering a concatenation is
      concatenating the filtered parts. */
  lemma {:induction false} NamedAppend(a: seq<Entry>, b: seq<Entry>, name: string)
    ensures Named(a + b, name) == Named(a, name) + Named(b, name)
    decreases |a|
  {
    if a == [] {
      assert a + b == b;
    } else {
      assert (a + b)[0] == a[0];
      assert (a + b)[1..] == a[1..] + b;
      NamedAppend(a[1..], b, name);
    }
  }

  class Registry {
    /** The namespace path segment, normalized once at construction. */
    const ns: string
    /** SHA-1 as hex. */
    const hash: string -> string
    /** The host's network address, used when a descriptor has no hostname. */
    const localAddress: string
    /** JSON.stringify. */
    const encode: Descriptor -> string
    /** The registrations this registry still renews. */
    var services: seq<Entry>

    /** Every tracked registration is tracked once, has not been left, and
        has its key under its service's directory. */
    ghost predicate Valid()
      reads this, services
    {
      && Distinct(services)
      && (forall e :: e in services ==> !e.destroyed && KeyUnderName(e))
    }

    /** The entry's key lies in its service's directory of this namespace. */
    predicate KeyUnderName(e: Entry) {
      Keys.Prefix(ns, Keys.Normalize(e.name) + "/") <= e.key
    }

    constructor (opts: Config.Opts, hash: string -> string, localAddress: string, encode: Descriptor -> string)
      ensures Valid()
      ensures ns == Keys.NormalizeNamespace(opts.namespace)
      ensures this.hash == hash && this.localAddress == localAddress && this.encode == encode
      ensures services == []
    {
      ns := Keys.NormalizeNamespace(opts.namespace);
      this.hash, this.localAddress, this.encode := hash, localAddress, encode;
      services := [];
    }

    /** `join(name, service, cb)` whose first write gets `reply`. The
        descriptor is completed in place and its storage key derived; the
        entry is tracked before the write. On success the renewal timer is
        armed at 5000 and the descriptor is the result; on failure the entry
        goes through `leave` (untracked, destroyed, key deleted) and the
        error is the result. */
    method Join(name: string, arg: ServiceArg, reply: Reply) returns (res: Result<Service, Listing.StoreError>, entry: Entry, sent: seq<Command>)
      requires Valid()
      modifies this, ArgObjects(arg)
      ensures Valid()
      ensures fresh(entry)
      ensures var d := Filled(old(Initial(arg)), name, localAddress);
        && entry.name == name
        && entry.key == Keys.StorageKey(ns, hash, name, d.url.value)
        && entry.value == encode(d)
        && (arg.Given? ==> arg.service.Snapshot() == d)
        && (res.Success? ==> res.value.Snapshot() == d)
      ensures reply.Ok? ==>
        && res.Success?
        && (if arg.Given? then res.value == arg.service else fresh(res.value))
        && services == old(services) + [entry]
        && !entry.destroyed && entry.timeout == Some(RenewInterval)
        && sent == [entry.Update()]
      ensures reply.Err? ==>
        && res == Failure(reply.error)
        && services == old(services)
        && entry.destroyed && entry.timeout == None
        && sent == [entry.Update(), Delete(entry.key)]
    {
      var service := Describe(name, arg);
      var d := service.Snapshot();
      entry := Register(name, d);
      sent := FirstUpdate(entry, reply);
      res := if reply.Ok? then Success(service) else Failure(reply.error);
    }

    /** The entry `join` creates for a completed descriptor, tracked at the
        end of the registrations (`services.push(entry)`) before any write. */
    method Register(name: string, d: Descriptor) returns (entry: Entry)
      requires Valid() && d.url.Some?
      modifies this
      ensures Valid() && fresh(entry)
      ensures entry.name == name && entry.key == Keys.StorageKey(ns, hash, name, d.url.value) && entry.value == encode(d)
      ensures !entry.destroyed && entry.timeout == None
      ensures services == old(services) + [entry]
    {
      entry := new Entry(name, Keys.StorageKey(ns, hash, name, d.url.value), encode(d));
      services := services + [entry];
    }

    /** The first `update` of a new entry and its callback: on success the
        renewal timer is armed at 5000; on failure the entry goes through the
        internal `leave`, which untracks it and deletes its key. */
    method FirstUpdate(entry: Entry, reply: Reply) returns (sent: seq<Command>)
      requires Valid()
      requires |services| > 0 && services[|services| - 1] == entry
      modifies this, entry
      ensures Valid()
      ensures reply.Ok? ==>
        && services == old(services)
        && !entry.destroyed && entry.timeout == Some(RenewInterval)
        && sent == [entry.Update()]
      ensures reply.Err? ==>
        && services == old(services)[..|old(services)| - 1]
        && entry.destroyed && entry.timeout == None
        && sent == [entry.Update(), Delete(entry.key)]
    {
      sent := [entry.Update()];
      if reply.Ok? {
        entry.timeout := Some(RenewInterval);
      } else {
        ghost var earlier := services[..|services| - 1];
        assert services == earlier + [entry];
        assert entry !in earlier by {
          assert Distinct(services);
        }
        var deleted := LeaveEntries([entry]);
        assert [entry][0] == entry;
        sent := sent + deleted;
        WithoutAppended(earlier, entry);
      }
    }

    /** The descriptor object `join` works on, completed in place: the
        caller's own object, or a fresh `{}` / `{port: n}`. */
    method Describe(name: string, arg: ServiceArg) returns (service: Service)
      modifies ArgObjects(arg)
      ensures service.Snapshot() == Filled(old(Initial(arg)), name, localAddress)
      ensures if arg.Given? then service == arg.service else fresh(service)
    {
      match arg {
        case Absent => service := new Service(Initial(arg));
        case Port(_) => service := new Service(Initial(arg));
        case Given(s) => service := s;
      }
      service.FillDefaults(name, localAddress);
    }

    /** The internal `leave(list, cb)`: the work list is taken one entry at
        a time; each has its timer cleared, is marked destroyed, is removed
        from the tracked registrations and has its key deleted. The callback
        (the return here) comes once, after the last entry. */
    method LeaveEntries(work: seq<Entry>) returns (sent: seq<Command>)
      requires Valid()
      modifies this, work
      ensures Valid()
      ensures services == Without(old(services), work)
      ensures forall i :: 0 <= i < |work| ==> work[i].destroyed && work[i].timeout == None
      ensures sent == Deletes(work)
    {
      var pending := work;
      ghost var done: seq<Entry> := [];
      sent := [];
      WithoutNothing(services);
      while pending != []
        invariant done + pending == work
        invariant Valid()
        invariant services == Without(old(services), done)
        invariant AllLeft(done)
        invariant sent == Deletes(done)
        decreases |pending|
      {
        var next := pending[0];
        assert next == work[|done|];
        pending := pending[1..];
        Release(next);
        WithoutSnoc(old(services), done, next);
        DeletesSnoc(done, next);
        sent := sent + [Delete(next.key)];
        done := done + [next];
      }
      assert done == done + pending == work;
    }

    /** One step of the internal `leave`: clear the timer, mark the entry
        destroyed, and drop it from the tracked registrations if it is
        there (at the index `indexOf` finds). */
    method Release(next: Entry)
      requires Valid()
      modifies this, next
      ensures Valid()
      ensures services == Without(old(services), [next])
      ensures next.destroyed && next.timeout == None
    {
      ghost var tracked := services;
      next.timeout := None;
      next.destroyed := true;
      services := Drop(services, next);
      forall e | e in services
        ensures !e.destroyed && KeyUnderName(e)
      {
        assert e in tracked && e != next;
      }
    }

    /** `leave(name, cb)`: every tracked registration with exactly this name
        is left, in tracking order; the others are untouched. */
    method Leave(name: string) returns (sent: seq<Command>)
      requires Valid()
      modifies this, Named(services, name)
      ensures Valid()
      ensures services == Without(old(services), Named(old(services), name))
      ensures forall i :: 0 <= i < |services| ==> services[i].name != name
      ensures forall i :: 0 <= i < |old(services)| && old(services)[i].name == name ==>
        old(services)[i].destroyed && old(services)[i].timeout == None
      ensures sent == Deletes(Named(old(services), name))
    {
      var list := Named(services, name);
      WithoutMembers(services, list);
      sent := LeaveEntries(list);
    }
  }

  /** The registry factory: the configuration is parsed (failing with
      'Invalid host.' when the host is falsy) and the namespace segment
      derived from it; no registration is tracked yet. */
  method Connect(config: Config.Config, hash: string -> string, localAddress: string, encode: Descriptor -> string)
    returns (r: Result<Registry, Config.ConfigError>)
    ensures r.Failure? <==> !Js.Truthy(config.host)
    ensures r.Failure? ==> r.error == Config.InvalidHost
    ensures r.Success? ==>
      && fresh(r.value) && r.value.Valid() && r.value.services == []
      && r.value.hash == hash && r.value.localAddress == localAddress && r.value.encode == encode
      && r.value.ns == Keys.NormalizeNamespace(Config.ParseConnectionObject(config).value.namespace)
  {
    match Config.ParseConnectionObject(config) {
      case Failure(e) => r := Failure(e);
      case Success(opts) =>
        var registry := new Registry(opts, hash, localAddress, encode);
        r := Success(registry);
    }
  }

  /** With no namespace configured, every key lives under "services/rr/". */
  lemma DefaultNamespaceKeys(config: Config.Config, key: string)
    requires Js.Truthy(config.host) && !Js.Truthy(config.namespace)
    ensures Keys.NormalizeNamespace(Config.ParseConnectionObject(config).value.namespace) == "rr/"
    ensures Keys.Prefix(Keys.NormalizeNamespace(Config.ParseConnectionObject(config).value.namespace), key) == "services/rr/" + key
  {
    Keys.NamespaceSegment("rr", key);
  }
}
