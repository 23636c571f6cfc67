/**
  Extracting a container's environment with secrets masked
  (backend/internal/api/resources.go, extractEnv and mapKeys).

  A cluster holds the objects that can be fetched; fetching any other name is an error.
 */
module EnvMask {
  import opened NameOrder
  import opened Wrappers

  const MASK: string := "********"

  datatype Ref = Ref(name: string, optional: bool)

  datatype EnvFrom = EnvFrom(configMap: Option<Ref>, secret: Option<Ref>)

  datatype KeyRef = KeyRef(name: string, key: string)

  datatype ValueFrom = ValueFrom(secret: Option<KeyRef>, configMap: Option<KeyRef>)

  datatype EnvVar = EnvVar(name: string, value: string, valueFrom: Option<ValueFrom>)

  type Data = map<string, string>

  datatype Cluster = Cluster(configMaps: map<string, Data>, secrets: map<string, Data>)

  // `client` is None without a connection to the cluster.
  datatype Request = Request(envs: seq<EnvVar>, envFrom: seq<EnvFrom>, revealSecrets: bool, userMaySee: bool)

  predicate CanReveal(req: Request, client: Option<Cluster>) {
    req.revealSecrets && req.userMaySee && client.Some?
  }

  datatype Env = Env(result: Data, secretKeys: set<string>)

  const EMPTY := Env(map[], {})

  // ---- The environment on values ----

  function Lookup(objects: map<string, Data>, ref: KeyRef): Option<string> {
    if ref.name in objects && ref.key in objects[ref.name] then Some(objects[ref.name][ref.key]) else None
  }

  function PlainData(e: Env, data: Data): Env {
    Env(e.result + (data - {""}), e.secretKeys)
  }

  function SecretData(e: Env, data: Data, show: bool): Env {
    var named := data - {""};
    Env(e.result + Veiled(named, show), e.secretKeys + named.Keys)
  }

  function Veiled(data: Data, show: bool): Data {
    map key | key in data :: if show then data[key] else MASK
  }

  predicate Wanted(ref: Option<Ref>) {
    ref.Some? && ref.value.name != ""
  }

  // An optional ConfigMap that is missing skips the rest of its source; a required one does not.
  function FromSource(c: Cluster, show: bool, e: Env, src: EnvFrom): Env {
    var missing := Wanted(src.configMap) && src.configMap.value.name !in c.configMaps;
    if missing && src.configMap.value.optional then e else
    var e' := if Wanted(src.configMap) && !missing then PlainData(e, c.configMaps[src.configMap.value.name]) else e;
    if Wanted(src.secret) && src.secret.value.name in c.secrets
    then SecretData(e', c.secrets[src.secret.value.name], show) else e'
  }

  function FromSources(c: Cluster, show: bool, e: Env, srcs: seq<EnvFrom>): Env {
    if srcs == [] then e
    else FromSource(c, show, FromSources(c, show, e, srcs[..|srcs| - 1]), srcs[|srcs| - 1])
  }

  function SetPlain(e: Env, name: string, value: string): Env {
    Env(e.result[name := value], e.secretKeys)
  }

  function SetSecret(e: Env, name: string, value: string): Env {
    Env(e.result[name := value], e.secretKeys + {name})
  }

  function FromVar(client: Option<Cluster>, show: bool, e: Env, v: EnvVar): Env {
    if v.value != "" then SetPlain(e, v.name, v.value)
    else if v.valueFrom.None? then e
    else if v.valueFrom.value.secret.Some? then
      var fetched :=
        if show && client.Some? then Lookup(client.value.secrets, v.valueFrom.value.secret.value) else None;
      SetSecret(e, v.name, if fetched.Some? then fetched.value else MASK)
    else if v.valueFrom.value.configMap.Some? then
      var fetched := if client.Some? then Lookup(client.value.configMaps, v.valueFrom.value.configMap.value) else None;
      SetPlain(e, v.name, if fetched.Some? then fetched.value else MASK)
    else e
  }

  function FromVars(client: Option<Cluster>, show: bool, e: Env, vs: seq<EnvVar>): Env {
    if vs == [] then e
    else FromVar(client, show, FromVars(client, show, e, vs[..|vs| - 1]), vs[|vs| - 1])
  }

  function Extract(req: Request, client: Option<Cluster>): Env {
    var show := CanReveal(req, client);
    var base := if client.Some? then FromSources(client.value, show, EMPTY, req.envFrom) else EMPTY;
    FromVars(client, show, base, req.envs)
  }

  // ---- Secret contents do not matter ----

  // Everything but the values inside secrets agrees.
  ghost predicate SameButSecretValues(a: Cluster, b: Cluster) {
    && a.configMaps == b.configMaps
    && a.secrets.Keys == b.secrets.Keys
    && forall name :: name in a.secrets ==> a.secrets[name].Keys == b.secrets[name].Keys
  }

  lemma SourceIgnoresSecrets(a: Cluster, b: Cluster, e: Env, src: EnvFrom)
    requires SameButSecretValues(a, b)
    ensures FromSource(a, false, e, src) == FromSource(b, false, e, src)
  {
    if Wanted(src.secret) && src.secret.value.name in a.secrets {
      var x, y := a.secrets[src.secret.value.name] - {""}, b.secrets[src.secret.value.name] - {""};
      assert x.Keys == y.Keys;
      assert Veiled(x, false) == Veiled(y, false);
    }
  }

  lemma {:induction false} SourcesIgnoreSecrets(a: Cluster, b: Cluster, e: Env, srcs: seq<EnvFrom>)
    requires SameButSecretValues(a, b)
    ensures FromSources(a, false, e, srcs) == FromSources(b, false, e, srcs)
  {
    if srcs != [] {
      var n := |srcs| - 1;
      SourcesIgnoreSecrets(a, b, e, srcs[..n]);
      SourceIgnoresSecrets(a, b, FromSources(b, false, e, srcs[..n]), srcs[n]);
    }
  }

  lemma {:induction false} VarsIgnoreSecrets(a: Cluster, b: Cluster, e: Env, vs: seq<EnvVar>)
    requires SameButSecretValues(a, b)
    ensures FromVars(Some(a), false, e, vs) == FromVars(Some(b), false, e, vs)
  {
    if vs != [] {
      VarsIgnoreSecrets(a, b, e, vs[..|vs| - 1]);
    }
  }

  // Main result: without permission to show them, clusters that differ only inside secrets give the
  // same environment and the same key list.
  lemma MaskedIsIndependentOfSecrets(req: Request, a: Cluster, b: Cluster)
    requires SameButSecretValues(a, b) && !(req.revealSecrets && req.userMaySee)
    ensures Extract(req, Some(a)) == Extract(req, Some(b))
  {
    SourcesIgnoreSecrets(a, b, EMPTY, req.envFrom);
    VarsIgnoreSecrets(a, b, FromSources(b, false, EMPTY, req.envFrom), req.envs);
  }

  // ---- Who writes a key, read off the input ----

  predicate WritesSecret(v: EnvVar) {
    v.value == "" && v.valueFrom.Some? && v.valueFrom.value.secret.Some?
  }

  predicate WritesPlain(v: EnvVar) {
    v.value != "" || (v.valueFrom.Some? && v.valueFrom.value.secret.None? && v.valueFrom.value.configMap.Some?)
  }

  // An optional ConfigMap that cannot be fetched takes the Secret of its source with it.
  predicate Skipped(c: Cluster, src: EnvFrom) {
    Wanted(src.configMap) && src.configMap.value.name !in c.configMaps && src.configMap.value.optional
  }

  predicate HasKey(objects: map<string, Data>, ref: Option<Ref>, key: string) {
    key != "" && Wanted(ref) && ref.value.name in objects && key in objects[ref.value.name]
  }

  // The source supplies the key through a Secret that can be fetched, or only through a ConfigMap.
  predicate SuppliesSecret(c: Cluster, src: EnvFrom, key: string) {
    !Skipped(c, src) && HasKey(c.secrets, src.secret, key)
  }

  predicate SuppliesPlain(c: Cluster, src: EnvFrom, key: string) {
    HasKey(c.configMaps, src.configMap, key) && !HasKey(c.secrets, src.secret, key)
  }

  predicate Supplies(c: Cluster, src: EnvFrom, key: string) {
    SuppliesSecret(c, src, key) || SuppliesPlain(c, src, key)
  }

  predicate Writes(v: EnvVar, key: string) {
    v.name == key && (WritesSecret(v) || WritesPlain(v))
  }

  datatype Writer = Nobody | Source(src: EnvFrom) | Var(v: EnvVar)

  function LastSource(c: Cluster, srcs: seq<EnvFrom>, key: string): Writer {
    if srcs == [] then Nobody
    else if Supplies(c, srcs[|srcs| - 1], key) then Source(srcs[|srcs| - 1])
    else LastSource(c, srcs[..|srcs| - 1], key)
  }

  function LastVar(vs: seq<EnvVar>, key: string): Writer {
    if vs == [] then Nobody
    else if Writes(vs[|vs| - 1], key) then Var(vs[|vs| - 1])
    else LastVar(vs[..|vs| - 1], key)
  }

  // They are what their names say: no later source or variable writes the key.
  lemma {:induction false} LastSourceIsLast(c: Cluster, srcs: seq<EnvFrom>, key: string) returns (k: int)
    ensures -1 <= k < |srcs| && LastSource(c, srcs, key) == if k == -1 then Nobody else Source(srcs[k])
    ensures k >= 0 ==> Supplies(c, srcs[k], key)
    ensures forall j :: k < j < |srcs| ==> !Supplies(c, srcs[j], key)
  {
    k := |srcs| - 1;
    if srcs != [] && !Supplies(c, srcs[k], key) {
      k := LastSourceIsLast(c, srcs[..k], key);
    }
  }

  lemma {:induction false} LastVarIsLast(vs: seq<EnvVar>, key: string) returns (k: int)
    ensures -1 <= k < |vs| && LastVar(vs, key) == if k == -1 then Nobody else Var(vs[k])
    ensures k >= 0 ==> Writes(vs[k], key)
    ensures forall j :: k < j < |vs| ==> !Writes(vs[j], key)
  {
    k := |vs| - 1;
    if vs != [] && !Writes(vs[k], key) {
      k := LastVarIsLast(vs[..k], key);
    }
  }

  // The last variable that writes the name, else the last source that supplies the key.
  function LastWriter(req: Request, client: Option<Cluster>, key: string): Writer {
    var byVar := LastVar(req.envs, key);
    if !byVar.Nobody? || client.None? then byVar else LastSource(client.value, req.envFrom, key)
  }

  predicate IsSecret(client: Option<Cluster>, w: Writer, key: string) {
    match w
    case Nobody => false
    case Source(src) => client.Some? && SuppliesSecret(client.value, src, key)
    case Var(v) => WritesSecret(v)
  }

  // What the writer leaves under the key.
  function Written(client: Option<Cluster>, show: bool, w: Writer, key: string): Option<string> {
    match w
    case Nobody => None
    case Source(src) =>
      if client.None? then None
      else if SuppliesSecret(client.value, src, key) then
        Some(if show then client.value.secrets[src.secret.value.name][key] else MASK)
      else if SuppliesPlain(client.value, src, key) then
        Some(client.value.configMaps[src.configMap.value.name][key])
      else None
    case Var(v) =>
      if v.value != "" then Some(v.value)
      else if v.valueFrom.None? then None
      else if v.valueFrom.value.secret.Some? then
        var fetched :=
          if show && client.Some? then Lookup(client.value.secrets, v.valueFrom.value.secret.value) else None;
        Some(if fetched.Some? then fetched.value else MASK)
      else if v.valueFrom.value.configMap.Some? then
        var fetched :=
          if client.Some? then Lookup(client.value.configMaps, v.valueFrom.value.configMap.value) else None;
        Some(if fetched.Some? then fetched.value else MASK)
      else None
  }

  function At(data: Data, key: string): Option<string> {
    if key in data then Some(data[key]) else None
  }

  // One source changes a key exactly if it supplies it.
  lemma SourceWrites(c: Cluster, show: bool, e: Env, src: EnvFrom, key: string)
    ensures var r := FromSource(c, show, e, src);
            && At(r.result, key) ==
                 (if Supplies(c, src, key) then Written(Some(c), show, Source(src), key) else At(e.result, key))
            && (key in r.secretKeys <==> key in e.secretKeys || SuppliesSecret(c, src, key))
  {
  }

  lemma VarWrites(client: Option<Cluster>, show: bool, e: Env, v: EnvVar, key: string)
    ensures var r := FromVar(client, show, e, v);
            && At(r.result, key) == (if Writes(v, key) then Written(client, show, Var(v), key) else At(e.result, key))
            && (key in r.secretKeys <==> key in e.secretKeys || (v.name == key && WritesSecret(v)))
  {
  }

  lemma {:induction false} SourcesWrite(c: Cluster, show: bool, srcs: seq<EnvFrom>, key: string)
    ensures At(FromSources(c, show, EMPTY, srcs).result, key) == Written(Some(c), show, LastSource(c, srcs, key), key)
  {
    if srcs != [] {
      var n := |srcs| - 1;
      SourcesWrite(c, show, srcs[..n], key);
      SourceWrites(c, show, FromSources(c, show, EMPTY, srcs[..n]), srcs[n], key);
    }
  }

  lemma {:induction false} SourcesList(c: Cluster, show: bool, srcs: seq<EnvFrom>, key: string)
    ensures key in FromSources(c, show, EMPTY, srcs).secretKeys <==>
              exists k :: 0 <= k < |srcs| && SuppliesSecret(c, srcs[k], key)
  {
    if srcs != [] {
      var n := |srcs| - 1;
      SourcesList(c, show, srcs[..n], key);
      SourceWrites(c, show, FromSources(c, show, EMPTY, srcs[..n]), srcs[n], key);
      assert srcs == srcs[..n] + [srcs[n]];
    }
  }

  lemma {:induction false} VarsWrite(client: Option<Cluster>, show: bool, e: Env, vs: seq<EnvVar>, key: string)
    ensures var w := LastVar(vs, key);
            At(FromVars(client, show, e, vs).result, key) ==
              if w.Nobody? then At(e.result, key) else Written(client, show, w, key)
  {
    if vs != [] {
      var n := |vs| - 1;
      VarsWrite(client, show, e, vs[..n], key);
      VarWrites(client, show, FromVars(client, show, e, vs[..n]), vs[n], key);
    }
  }

  lemma {:induction false} VarsList(client: Option<Cluster>, show: bool, e: Env, vs: seq<EnvVar>, key: string)
    ensures key in FromVars(client, show, e, vs).secretKeys <==>
              key in e.secretKeys || exists k :: 0 <= k < |vs| && vs[k].name == key && WritesSecret(vs[k])
  {
    if vs != [] {
      var n := |vs| - 1;
      VarsList(client, show, e, vs[..n], key);
      VarWrites(client, show, FromVars(client, show, e, vs[..n]), vs[n], key);
      assert vs == vs[..n] + [vs[n]];
    }
  }

  // Some source or variable, not necessarily the last one, writes the key as a secret.
  ghost predicate SomeSecret(req: Request, client: Option<Cluster>, key: string) {
    || (exists k :: 0 <= k < |req.envs| && req.envs[k].name == key && WritesSecret(req.envs[k]))
    || (client.Some? && exists k :: 0 <= k < |req.envFrom| && SuppliesSecret(client.value, req.envFrom[k], key))
  }

  // Main result: every key of the environment is what its last writer left there, whoever may see
  // it, and a key is listed as secret exactly when something writes it as a secret.
  lemma LastWriterDecides(req: Request, client: Option<Cluster>, key: string)
    ensures At(Extract(req, client).result, key) ==
              Written(client, CanReveal(req, client), LastWriter(req, client, key), key)
    ensures key in Extract(req, client).secretKeys <==> SomeSecret(req, client, key)
  {
    var show := CanReveal(req, client);
    if client.Some? {
      SourcesWrite(client.value, show, req.envFrom, key);
      SourcesList(client.value, show, req.envFrom, key);
    }
    var base := if client.Some? then FromSources(client.value, show, EMPTY, req.envFrom) else EMPTY;
    VarsWrite(client, show, base, req.envs, key);
    VarsList(client, show, base, req.envs, key);
  }

  // Without permission, a key whose last writer is a secret shows the mask and is listed.
  lemma SecretsAreMasked(req: Request, client: Option<Cluster>, key: string)
    requires !req.revealSecrets || !req.userMaySee || client.None?
    requires IsSecret(client, LastWriter(req, client, key), key)
    ensures key in Extract(req, client).result && Extract(req, client).result[key] == MASK
    ensures key in Extract(req, client).secretKeys
  {
    LastWriterDecides(req, client, key);
    var v := LastVarIsLast(req.envs, key);
    if v == -1 {
      var k := LastSourceIsLast(client.value, req.envFrom, key);
      assert SuppliesSecret(client.value, req.envFrom[k], key);
    } else {
      assert req.envs[v].name == key && WritesSecret(req.envs[v]);
    }
  }

  // With permission, a key whose last writer is a secret that can be fetched shows its value.
  lemma SecretsAreShown(req: Request, c: Cluster, key: string)
    requires req.revealSecrets && req.userMaySee && IsSecret(Some(c), LastWriter(req, Some(c), key), key)
    ensures var w := LastWriter(req, Some(c), key);
            key in Extract(req, Some(c)).result &&
            var shown := Extract(req, Some(c)).result[key];
            match w
            case Nobody => true
            case Source(src) => shown == c.secrets[src.secret.value.name][key]
            case Var(v) =>
              var ref := v.valueFrom.value.secret.value;
              if ref.name in c.secrets && ref.key in c.secrets[ref.name]
              then shown == c.secrets[ref.name][ref.key] else shown == MASK
  {
    LastWriterDecides(req, Some(c), key);
  }

  // ---- The loops ----

  // The part of the data that has been visited, without the empty key.
  ghost function Done(data: Data, todo: set<string>): Data {
    data - ({""} + todo)
  }

  lemma VisitKey(data: Data, todo: set<string>, key: string)
    requires key in todo && key in data
    ensures Done(data, todo - {key}) == if key == "" then Done(data, todo) else Done(data, todo)[key := data[key]]
  {
  }

  lemma VisitedAll(data: Data)
    ensures Done(data, {}) == data - {""}
    ensures Done(data, data.Keys) == map[]
  {
  }

  lemma VeiledGrows(data: Data, key: string, value: string, show: bool)
    ensures Veiled(data[key := value], show) == Veiled(data, show)[key := if show then value else MASK]
  {
  }

  lemma SecretStep(result: Data, secretKeys: set<string>, data: Data, todo: set<string>, key: string, show: bool)
    requires key in todo && key in data
    ensures var r, k := result + Veiled(Done(data, todo), show), secretKeys + Done(data, todo).Keys;
            && result + Veiled(Done(data, todo - {key}), show) ==
                 (if key == "" then r else r[key := if show then data[key] else MASK])
            && secretKeys + Done(data, todo - {key}).Keys == (if key == "" then k else k + {key})
  {
    VisitKey(data, todo, key);
    VeiledGrows(Done(data, todo), key, data[key], show);
  }

  method AddData(result: Data, data: Data) returns (r: Data)
    ensures r == result + (data - {""})
  {
    r := result;
    var todo := data.Keys;
    VisitedAll(data);
    while todo != {}
      invariant todo <= data.Keys
      invariant r == result + Done(data, todo)
    {
      var key :| key in todo;
      VisitKey(data, todo, key);
      todo := todo - {key};
      if key != "" {
        r := r[key := data[key]];
      }
    }
  }

  method AddSecret(result: Data, secretKeys: set<string>, data: Data, canReveal: bool)
    returns (r: Data, keys: set<string>)
    ensures r == result + Veiled(data - {""}, canReveal)
    ensures keys == secretKeys + (data - {""}).Keys
  {
    r, keys := result, secretKeys;
    var todo := data.Keys;
    VisitedAll(data);
    while todo != {}
      invariant todo <= data.Keys
      invariant r == result + Veiled(Done(data, todo), canReveal)
      invariant keys == secretKeys + Done(data, todo).Keys
    {
      var key :| key in todo;
      SecretStep(result, secretKeys, data, todo, key, canReveal);
      todo := todo - {key};
      if key == "" {
        continue;
      }
      keys := keys + {key};
      r := r[key := if canReveal then data[key] else MASK];
    }
  }

  method ExtractEnv(req: Request, client: Option<Cluster>) returns (result: Data, keys: seq<string>)
    ensures result == Extract(req, client).result
    ensures Sorted(keys) && multiset(keys) == multiset(Extract(req, client).secretKeys - {""})
  {
    var canReveal := CanReveal(req, client);
    var secretKeys: set<string>;
    result, secretKeys := map[], {};
    ghost var env := EMPTY;
    if client.Some? {
      for k := 0 to |req.envFrom|
        invariant env == FromSources(client.value, canReveal, EMPTY, req.envFrom[..k])
        invariant result == env.result && secretKeys == env.secretKeys
      {
        var source := req.envFrom[k];
        assert req.envFrom[..k + 1][..k] == req.envFrom[..k];
        ghost var before := env;
        env := FromSource(client.value, canReveal, env, source);
        if Wanted(source.configMap) {
          if source.configMap.value.name !in client.value.configMaps {
            if source.configMap.value.optional {
              continue;
            }
          } else {
            result := AddData(result, client.value.configMaps[source.configMap.value.name]);
          }
        }
        if Wanted(source.secret) && source.secret.value.name in client.value.secrets {
          var data := client.value.secrets[source.secret.value.name];
          result, secretKeys := AddSecret(result, secretKeys, data, canReveal);
        }
      }
      assert req.envFrom[..|req.envFrom|] == req.envFrom;
    }
    ghost var base := env;
    for k := 0 to |req.envs|
      invariant env == FromVars(client, canReveal, base, req.envs[..k])
      invariant result == env.result && secretKeys == env.secretKeys
    {
      var v := req.envs[k];
      assert req.envs[..k + 1][..k] == req.envs[..k];
      env := FromVar(client, canReveal, env, v);
      result, secretKeys := ExtractVar(client, canReveal, result, secretKeys, v);
    }
    assert req.envs[..|req.envs|] == req.envs;
    keys := MapKeys(secretKeys);
  }

  // The body of the second loop.
  method ExtractVar(client: Option<Cluster>, canReveal: bool, result: Data, secretKeys: set<string>, v: EnvVar)
    returns (r: Data, keys: set<string>)
    requires canReveal ==> client.Some?
    ensures Env(r, keys) == FromVar(client, canReveal, Env(result, secretKeys), v)
  {
    r, keys := result, secretKeys;
    if v.value != "" {
      r := r[v.name := v.value];
      return;
    }
    if v.valueFrom.None? {
      return;
    }
    if v.valueFrom.value.secret.Some? {
      keys := keys + {v.name};
      if canReveal {
        var value := Lookup(client.value.secrets, v.valueFrom.value.secret.value);
        if value.Some? {
          r := r[v.name := value.value];
          return;
        }
      }
      r := r[v.name := MASK];
      return;
    }
    if v.valueFrom.value.configMap.Some? {
      if client.Some? {
        var value := Lookup(client.value.configMaps, v.valueFrom.value.configMap.value);
        if value.Some? {
          r := r[v.name := value.value];
          return;
        }
      }
      r := r[v.name := MASK];
    }
  }

  // The keys without the empty one, each once, sorted, whatever the order of the map.
  method MapKeys(input: set<string>) returns (keys: seq<string>)
    ensures Sorted(keys) && multiset(keys) == multiset(input - {""})
  {
    keys := [];
    var todo := input;
    while todo != {}
      invariant todo <= input
      invariant multiset(keys) == multiset((input - todo) - {""})
    {
      var key :| key in todo;
      ghost var before := (input - todo) - {""};
      todo := todo - {key};
      if key == "" {
        assert (input - todo) - {""} == before;
        continue;
      }
      assert (input - todo) - {""} == before + {key};
      keys := keys + [key];
    }
    assert (input - {}) - {""} == input - {""};
    SortSorts(keys);
    keys := Sort(keys);
  }
}
