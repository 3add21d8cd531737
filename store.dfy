/** The front end's shared state (src/lib/store.svelte.ts): the alert
    message and the proxy settings with their add, remove and select
    operations. */
module AppStore {
  import opened Wrappers

  /** The banner message shown to the user. */
  class AlertMessage {
    var message: string

    constructor()
      ensures message == ""
    {
      message := "";
    }

    /** `setAlert` (lines 6-8): replace the message. */
    method SetAlert(m: string)
      modifies this
      ensures message == m
    {
      message := m;
    }
  }

  /** "system" | "custom" | "none". */
  datatype ProxyType = SystemProxy | CustomProxy | NoProxy

  /** The fields a user enters for a custom proxy. */
  datatype ProxyFields = ProxyFields(host: string, port: int, username: Option<string>, password: Option<string>)

  /** A stored custom proxy: the entered fields under a generated id. */
  datatype Proxy = Proxy(id: string, host: string, port: int, username: Option<string>, password: Option<string>)

  /** A snapshot of `proxySettings`. */
  datatype ProxyState = ProxyState(proxyType: ProxyType, customProxies: seq<Proxy>, selectedCustomProxyId: Option<string>)

  function WithId(id: string, f: ProxyFields): Proxy
  {
    Proxy(id, f.host, f.port, f.username, f.password)
  }

  /** The custom proxies whose id differs from `id`, in their order
      (`filter((p) => p.id !== id)`). */
  function KeepOthers(ps: seq<Proxy>, id: string): (r: seq<Proxy>)
    ensures |r| <= |ps|
    ensures forall p :: p in r <==> p in ps && p.id != id
  {
    if ps == [] then []
    else
      var rest := KeepOthers(ps[..|ps| - 1], id);
      var last := ps[|ps| - 1];
      assert ps == ps[..|ps| - 1] + [last];
      if last.id != id then rest + [last] else rest
  }

  /** The state after adding a proxy with the given id. */
  function Added(s: ProxyState, f: ProxyFields, id: string): ProxyState
  {
    s.(customProxies := s.customProxies + [WithId(id, f)])
  }

  /** The state after removing the proxies with `id`: the selection is
      cleared exactly when it was `id`. */
  function Removed(s: ProxyState, id: string): (r: ProxyState)
    ensures r.proxyType == s.proxyType
    ensures r.selectedCustomProxyId == None <==> s.selectedCustomProxyId == None || s.selectedCustomProxyId == Some(id)
    ensures r.selectedCustomProxyId != None ==> r.selectedCustomProxyId == s.selectedCustomProxyId
  {
    ProxyState(s.proxyType, KeepOthers(s.customProxies, id),
               if s.selectedCustomProxyId == Some(id) then None else s.selectedCustomProxyId)
  }

  /** Filtering distributes over concatenation: the order is kept. */
  lemma {:induction false} KeepOthersAppend(a: seq<Proxy>, b: seq<Proxy>, id: string)
    ensures KeepOthers(a + b, id) == KeepOthers(a, id) + KeepOthers(b, id)
    decreases |b|
  {
    if b == [] {
      assert a + b == a;
    } else {
      var init := b[..|b| - 1];
      assert (a + b)[..|a + b| - 1] == a + init;
      assert (a + b)[|a + b| - 1] == b[|b| - 1];
      KeepOthersAppend(a, init, id);
    }
  }

  /** Nothing is dropped when no proxy has the id. */
  lemma {:induction false} KeepOthersAbsent(ps: seq<Proxy>, id: string)
    requires forall k :: 0 <= k < |ps| ==> ps[k].id != id
    ensures KeepOthers(ps, id) == ps
  {
    if ps != [] {
      KeepOthersAbsent(ps[..|ps| - 1], id);
      assert ps[..|ps| - 1] + [ps[|ps| - 1]] == ps;
    }
  }

  /** Removing twice is removing once. */
  lemma RemoveIsIdempotent(s: ProxyState, id: string)
    ensures Removed(Removed(s, id), id) == Removed(s, id)
  {
    var r := KeepOthers(s.customProxies, id);
    forall k | 0 <= k < |r| ensures r[k].id != id {
      assert r[k] in r;
    }
    KeepOthersAbsent(r, id);
  }

  /** Removing a freshly added proxy, before it was selected, gives back
      the state before the add. */
  lemma RemoveUndoesAdd(s: ProxyState, f: ProxyFields, id: string)
    requires forall k :: 0 <= k < |s.customProxies| ==> s.customProxies[k].id != id
    requires s.selectedCustomProxyId != Some(id)
    ensures Removed(Added(s, f, id), id) == s
  {
    KeepOthersAppend(s.customProxies, [WithId(id, f)], id);
    KeepOthersAbsent(s.customProxies, id);
    assert KeepOthers([WithId(id, f)], id) == [];
  }

  class ProxySettings {
    var proxyType: ProxyType
    var customProxies: seq<Proxy>
    var selectedCustomProxyId: Option<string>

    /** The initial state: system proxy, no custom proxy, no selection. */
    constructor()
      ensures proxyType == SystemProxy && customProxies == [] && selectedCustomProxyId == None
    {
      proxyType := SystemProxy;
      customProxies := [];
      selectedCustomProxyId := None;
    }

    function State(): ProxyState
      reads this
    {
      ProxyState(proxyType, customProxies, selectedCustomProxyId)
    }

    /** `addCustomProxy` (lines 23-36); `id` stands for `crypto.randomUUID()`. */
    method AddCustomProxy(proxy: ProxyFields, id: string)
      modifies this
      ensures customProxies == old(customProxies) + [WithId(id, proxy)]
      ensures State() == Added(old(State()), proxy, id)
    {
      customProxies := customProxies + [WithId(id, proxy)];
    }

    /** `removeCustomProxy` (lines 38-45). */
    method RemoveCustomProxy(id: string)
      modifies this
      ensures State() == Removed(old(State()), id)
    {
      customProxies := KeepOthers(customProxies, id);
      if selectedCustomProxyId == Some(id) {
        selectedCustomProxyId := None;
      }
    }

    /** `selectCustomProxy` (lines 47-49): no membership check. */
    method SelectCustomProxy(id: string)
      modifies this
      ensures State() == old(State()).(selectedCustomProxyId := Some(id))
    {
      selectedCustomProxyId := Some(id);
    }

    /** `setProxyType` (lines 51-53). */
    method SetProxyType(t: ProxyType)
      modifies this
      ensures State() == old(State()).(proxyType := t)
    {
      proxyType := t;
    }
  }
}
