// The vault of one process: its cache of the file, the copies that it takes and
// gives, and the file that it shares with other processes.
module Vault {
  import opened Wrappers
  import opened VaultProtocol

  type Key = string

  datatype Authority = Authority(key: string, certificate: string, created: int)

  datatype RouteValue = RouteValue(upstream: string, rateLimit: int, methods: Option<seq<string>>)

  datatype SignValue = SignValue(algorithm: string, fingerprint: string)

  datatype SecretValue =
    SecretValue(name: string, mode: string, value: string, created: int,
                route: Option<RouteValue>, sign: Option<SignValue>, expose: Option<string>)

  type VaultDocument = Document<SecretValue, Authority>

  // A sealed document opens with its key only.
  datatype Sealed = Sealed(key: Key, document: VaultDocument)

  function Unseal(sealed: Sealed, key: Key): Option<VaultDocument> {
    if sealed.key == key then Some(sealed.document) else None
  }

  class RouteSpec {
    var upstream: string
    var rateLimit: int
    var methods: array?<string>

    constructor (upstream: string, rateLimit: int, methods: array?<string>)
      ensures this.upstream == upstream && this.rateLimit == rateLimit && this.methods == methods
    {
      this.upstream, this.rateLimit, this.methods := upstream, rateLimit, methods;
    }

    ghost function Repr(): set<object>
      reads this
    {
      if methods == null then {this} else {this, methods}
    }

    function Value(): RouteValue
      reads this, methods
    {
      RouteValue(upstream, rateLimit, if methods == null then None else Some(methods[..]))
    }
  }

  class SignSpec {
    var algorithm: string
    var fingerprint: string

    constructor (algorithm: string, fingerprint: string)
      ensures this.algorithm == algorithm && this.fingerprint == fingerprint
    {
      this.algorithm, this.fingerprint := algorithm, fingerprint;
    }

    function Value(): SignValue
      reads this
    {
      SignValue(algorithm, fingerprint)
    }
  }

  class ExposeSpec {
    var variable: string

    constructor (variable: string)
      ensures this.variable == variable
    {
      this.variable := variable;
    }
  }

  class Secret {
    var name: string
    var mode: string
    var value: string
    var created: int
    var route: RouteSpec?
    var sign: SignSpec?
    var expose: ExposeSpec?

    constructor (name: string, mode: string, value: string, created: int, route: RouteSpec?, sign: SignSpec?,
                 expose: ExposeSpec?)
      ensures this.name == name && this.mode == mode && this.value == value && this.created == created
      ensures this.route == route && this.sign == sign && this.expose == expose
    {
      this.name, this.mode, this.value, this.created := name, mode, value, created;
      this.route, this.sign, this.expose := route, sign, expose;
    }

    // The secret and all that can be changed through it.
    ghost function Repr(): set<object>
      reads this, route
    {
      {this} + (if route == null then {} else route.Repr()) + (if sign == null then {} else {sign})
      + (if expose == null then {} else {expose})
    }

    function Value(): SecretValue
      reads Repr()
    {
      SecretValue(name, mode, value, created,
                  if route == null then None else Some(route.Value()),
                  if sign == null then None else Some(sign.Value()),
                  if expose == null then None else Some(expose.variable))
    }

    // The secret has this value, and all that can be changed through it is
    // among the objects.
    ghost predicate Holds(v: SecretValue, objects: set<object>)
      reads this, objects
    {
      this in objects && (route != null ==> route in objects) && Repr() <= objects && Value() == v
    }
  }

  method CopyMethods(methods: array<string>) returns (copied: array<string>)
    ensures fresh(copied) && copied[..] == methods[..]
  {
    var names := methods[..];
    copied := new string[|names|](i requires 0 <= i < |names| => names[i]);
  }

  method CopyRoute(route: RouteSpec) returns (copied: RouteSpec)
    ensures fresh(copied.Repr()) && copied.Value() == route.Value()
  {
    var methods := route.methods;
    if methods != null {
      methods := CopyMethods(methods);
    }
    copied := new RouteSpec(route.upstream, route.rateLimit, methods);
  }

  // A deep copy: an equal secret that shares nothing with the first one.
  method CopySecret(secret: Secret) returns (copied: Secret)
    ensures fresh(copied.Repr()) && copied.Value() == old(secret.Value())
  {
    var route, sign, expose := secret.route, secret.sign, secret.expose;
    if route != null {
      route := CopyRoute(route);
    }
    if sign != null {
      sign := new SignSpec(sign.algorithm, sign.fingerprint);
    }
    if expose != null {
      expose := new ExposeSpec(expose.variable);
    }
    copied := new Secret(secret.name, secret.mode, secret.value, secret.created, route, sign, expose);
  }

  ghost predicate AllHold(secrets: map<string, Secret>, contents: map<string, SecretValue>, objects: set<object>)
    reads objects
  {
    forall n :: n in secrets ==> n in contents && secrets[n] in objects && secrets[n].Holds(contents[n], objects)
  }

  // A document owns its secrets, and its contents are their values.
  class StoredDocument {
    var secrets: map<string, Secret>
    var authorities: map<string, Authority>
    ghost var contents: map<string, SecretValue>
    ghost var objects: set<object>

    ghost predicate Valid()
      reads this, objects
    {
      this !in objects && contents.Keys == secrets.Keys && AllHold(secrets, contents, objects)
    }

    ghost function Repr(): set<object>
      reads this
    {
      objects + {this}
    }

    ghost function Value(): VaultDocument
      reads this
    {
      Document(contents, authorities)
    }

    constructor (secrets: map<string, Secret>, authorities: map<string, Authority>,
                 ghost contents: map<string, SecretValue>, ghost objects: set<object>)
      requires contents.Keys == secrets.Keys && AllHold(secrets, contents, objects)
      ensures Valid() && Value() == Document(contents, authorities) && this.objects == objects
    {
      this.secrets, this.authorities := secrets, authorities;
      this.contents, this.objects := contents, objects;
      new;
      hide AllHold;
    }

    // Takes over a secret under its name.
    method Add(secret: Secret)
      requires Valid() && this !in secret.Repr()
      modifies this
      ensures Valid() && objects == old(objects) + secret.Repr()
      ensures Value() == Apply(old(Value()), Put(old(secret.name), old(secret.Value())))
    {
      hide AllHold, Secret.Value, Secret.Repr;
      ghost var v := secret.Value();
      ghost var more := objects + secret.Repr();
      AddSecret(secrets, contents, objects, secret.name, secret, more);
      secrets := secrets[secret.name := secret];
      contents := contents[secret.name := v];
      objects := more;
    }

    method Delete(name: string)
      requires Valid()
      modifies this
      ensures Valid() && objects == old(objects)
      ensures Value() == Apply(old(Value()), VaultProtocol.Delete(name))
    {
      hide AllHold;
      RemoveSecret(secrets, contents, objects, name);
      secrets := secrets - {name};
      contents := contents - {name};
    }

    method SetAuthority(host: string, authority: Authority)
      requires Valid()
      modifies this
      ensures Valid() && objects == old(objects)
      ensures Value() == Apply(old(Value()), VaultProtocol.SetAuthority(host, authority))
    {
      hide AllHold;
      authorities := authorities[host := authority];
    }
  }

  lemma AddSecret(secrets: map<string, Secret>, contents: map<string, SecretValue>, objects: set<object>, name: string,
                  secret: Secret, more: set<object>)
    requires AllHold(secrets, contents, objects) && more == objects + secret.Repr() && contents.Keys == secrets.Keys
    ensures AllHold(secrets[name := secret], contents[name := secret.Value()], more)
    ensures contents[name := secret.Value()].Keys == secrets[name := secret].Keys
  {
    hide Secret.Holds, Secret.Value, Secret.Repr;
    HoldsItself(secret, more);
    forall n | n in secrets
      ensures secrets[n].Holds(contents[n], more)
    {
      HoldsInMore(secrets[n], contents[n], objects, more);
    }
  }

  lemma RemoveSecret(secrets: map<string, Secret>, contents: map<string, SecretValue>, objects: set<object>,
                     name: string)
    requires AllHold(secrets, contents, objects) && contents.Keys == secrets.Keys
    ensures AllHold(secrets - {name}, contents - {name}, objects) && (contents - {name}).Keys == (secrets - {name}).Keys
  {
    hide Secret.Holds;
  }

  lemma HoldsInMore(secret: Secret, v: SecretValue, objects: set<object>, more: set<object>)
    requires secret in objects && secret.Holds(v, objects) && objects <= more
    ensures secret.Holds(v, more)
  {
  }

  lemma HoldsItself(secret: Secret, objects: set<object>)
    requires secret.Repr() <= objects
    ensures secret in objects && secret.Holds(secret.Value(), objects)
  {
  }

  lemma HoldsMeans(secret: Secret, v: SecretValue, objects: set<object>)
    requires secret in objects && secret.Holds(v, objects)
    ensures secret.Value() == v && secret.Repr() <= objects
  {
  }

  // Adds a copy of one secret.
  method CopyInto(secret: Secret, name: string, copies: map<string, Secret>, ghost contents: map<string, SecretValue>,
                  ghost objects: set<object>)
      returns (more: map<string, Secret>, ghost added: set<object>)
    requires AllHold(copies, contents, objects) && name in contents && secret.Value() == contents[name]
    ensures more.Keys == copies.Keys + {name} && fresh(added)
    ensures AllHold(more, contents, objects + added)
  {
    hide *;
    var copied := CopySecret(secret);
    added := copied.Repr();
    more := copies[name := copied];
    AddCopy(copies, contents, objects, name, copied, objects + added);
  }

  lemma AddCopy(copies: map<string, Secret>, contents: map<string, SecretValue>, objects: set<object>, name: string,
                copied: Secret, more: set<object>)
    requires AllHold(copies, contents, objects) && objects <= more && copied.Repr() <= more
    requires name in contents && copied.Value() == contents[name]
    ensures AllHold(copies[name := copied], contents, more)
  {
    hide Secret.Holds, Secret.Value, Secret.Repr;
    HoldsItself(copied, more);
    forall n | n in copies
      ensures copies[n].Holds(contents[n], more)
    {
      HoldsInMore(copies[n], contents[n], objects, more);
    }
  }

  lemma SecretOf(document: StoredDocument, name: string)
    requires document.Valid() && name in document.secrets
    ensures name in document.contents && document.secrets[name].Value() == document.contents[name]
    ensures document.secrets[name] in document.objects && document.secrets[name].Repr() <= document.objects
  {
    HoldsMeans(document.secrets[name], document.contents[name], document.objects);
  }

  lemma NoneHold(contents: map<string, SecretValue>)
    ensures AllHold(map[], contents, {})
  {
  }

  lemma SameKeys(document: StoredDocument)
    requires document.Valid()
    ensures document.contents.Keys == document.secrets.Keys
  {
  }

  // Copies the secrets of a document one by one into new objects.
  method CopySecrets(document: StoredDocument) returns (copies: map<string, Secret>, ghost objects: set<object>)
    requires document.Valid()
    ensures fresh(objects) && copies.Keys == document.contents.Keys && AllHold(copies, document.contents, objects)
  {
    hide *;
    copies, objects := map[], {};
    var rest := document.secrets.Keys;
    NoneHold(document.contents);
    SameKeys(document);
    AllDone(rest, {}, {});
    assert copies.Keys == {};
    while rest != {}
      invariant Splits(document.secrets.Keys, copies.Keys, rest)
      invariant document.Valid() && fresh(objects) && AllHold(copies, document.contents, objects)
      decreases |rest|
    {
      hide *;
      var name :| name in rest;
      SplitsOn(document.secrets.Keys, copies.Keys, rest, name);
      SecretOf(document, name);
      rest := rest - {name};
      ghost var added;
      copies, added := CopyInto(document.secrets[name], name, copies, document.contents, objects);
      objects := objects + added;
    }
    AllDone(document.secrets.Keys, copies.Keys, rest);
  }

  ghost predicate Splits(all: set<string>, done: set<string>, rest: set<string>) {
    all == done + rest
  }

  lemma SplitsOn(all: set<string>, done: set<string>, rest: set<string>, name: string)
    requires Splits(all, done, rest) && name in rest
    ensures Splits(all, done + {name}, rest - {name}) && name in all
  {
  }

  lemma AllDone(all: set<string>, done: set<string>, rest: set<string>)
    ensures Splits(all, done, {}) ==> all == done
    ensures Splits(all, {}, all)
  {
  }

  method CopyDocument(document: StoredDocument) returns (copied: StoredDocument)
    requires document.Valid()
    ensures copied.Valid() && fresh(copied.Repr()) && copied.Value() == document.Value()
  {
    hide AllHold;
    var copies, objects := CopySecrets(document);
    copied := new StoredDocument(copies, document.authorities, document.contents, objects);
  }

  // The file that the processes share. Its info is what the file system says
  // about the present version.
  class File {
    var sealed: Option<Sealed>
    var stamp: Stamp
    ghost var versions: seq<Version<SecretValue, Authority>>

    ghost predicate Valid()
      reads this
    {
      sealed.Some? ==> versions != [] && versions[|versions| - 1] == Version(stamp, sealed.value.document)
    }

    constructor ()
      ensures Valid() && sealed == None && versions == []
    {
      sealed, versions := None, [];
    }

    // Renames a new version over the file.
    method Replace(next: Sealed, at: Stamp)
      modifies this
      ensures Valid() && sealed == Some(next) && stamp == at && versions == old(versions) + [Version(at, next.document)]
    {
      sealed, stamp := Some(next), at;
      versions := versions + [Version(at, next.document)];
    }
  }

  class Vault {
    const file: File
    var key: Option<Key>
    var document: StoredDocument?
    var loaded: Stamp

    // The cache is some version of the file.
    ghost predicate Valid()
      reads this, file, document, if document == null then {} else document.objects
    {
      && file.Valid()
      && (document != null ==> key.Some? && document.Valid() && Version(loaded, document.Value()) in file.versions)
    }

    // What the file holds for this vault.
    ghost function Contents(): Option<VaultDocument>
      reads this, file
    {
      if key.Some? && file.sealed.Some? then Unseal(file.sealed.value, key.value) else None
    }

    // What a read answers from: the cache while the file has its stamp, and else
    // the file.
    ghost function Answers(): Option<VaultDocument>
      requires Valid()
      reads this, file, document, if document == null then {} else document.objects
    {
      if file.sealed.Some? && document != null && file.stamp == loaded then Some(document.Value()) else Contents()
    }

    // A vault that has loaded nothing yet.
    constructor (file: File, key: Key)
      requires file.Valid()
      ensures Valid() && this.file == file && this.key == Some(key) && document == null
    {
      this.file, this.key, document := file, Some(key), null;
    }

    // Loads the file unless the cache has its stamp.
    method Reload() returns (ok: bool)
      requires Valid()
      modifies this
      ensures Valid() && key == old(key) && (ok <==> document != null)
      ensures document == old(document) || (document != null ==> fresh(document.Repr()))
      ensures Answers() == old(Answers()) && (ok <==> Answers().Some?)
      ensures ok ==> Some(document.Value()) == Answers() && loaded == file.stamp
      ensures ok && StampTells(file.versions) && Contents().Some? ==> Some(document.Value()) == Contents()
    {
      if key.None? {
        return false;
      }
      if file.sealed.None? {
        document := null;
        return false;
      }
      if document != null && file.stamp == loaded {
        CacheIsFile(loaded, document.Value(), file.versions);
        return true;
      }
      var unsealed := Unseal(file.sealed.value, key.value);
      if unsealed.None? {
        document := null;
        return false;
      }
      document := LoadDocument(unsealed.value);
      loaded := file.stamp;
      ok := true;
    }

    // Under the lock of the file, which no other process holds meanwhile, the
    // file is read again whatever its stamp says.
    method LockAndReload() returns (ok: bool)
      requires Valid()
      modifies this
      ensures Valid() && key == old(key) && (ok <==> Contents().Some?)
      ensures ok ==> document != null && Some(document.Value()) == Contents()
      ensures document == old(document) || (document != null ==> fresh(document.Repr()))
    {
      if key.None? {
        return false;
      }
      document := null;
      ok := Reload();
    }

    // Seals a document into the file and keeps it as the cache.
    method WriteDocument(written: StoredDocument, at: Stamp)
      requires file.Valid() && key.Some? && written.Valid() && file !in written.objects && this !in written.objects
      modifies this, file
      ensures Valid() && key == old(key) && document == written && document.Value() == old(written.Value())
      ensures file.versions == old(file.versions) + [Version(at, old(written.Value()))] && file.stamp == at
      ensures Contents() == Some(old(written.Value()))
    {
      hide AllHold;
      var encoded := Encode(written);
      file.Replace(Sealed(key.value, encoded), at);
      document := written;
      loaded := at;
    }

    // The caller has none of the objects of the cache.
    ghost predicate Foreign(secret: Secret)
      reads this, document, secret, secret.route
    {
      document != null ==> secret.Repr() !! document.Repr()
    }

    // Stores a copy of the secret under its name.
    method PutSecret(secret: Secret, valid: SecretValue -> bool, now: int, at: Stamp) returns (ok: bool, replaced: bool)
      requires Valid() && Foreign(secret)
      modifies this, file, secret`created
      ensures Valid() && key == old(key)
      ensures secret.Value() ==
              (if valid(old(secret.Value())) then CreatedAt(old(secret.Value()), now) else old(secret.Value()))
      ensures ok <==> valid(old(secret.Value())) && old(Contents()).Some?
      ensures ok ==>
        && Contents() == Some(Apply(old(Contents()).value, Put(old(secret.name), CreatedAt(old(secret.Value()), now))))
        && (replaced <==> old(secret.name) in old(Contents()).value.secrets)
        && file.versions == old(file.versions) + [Version(at, Contents().value)]
      ensures ok ==>
        var before, after, created := old(Contents()).value, Contents().value, old(secret.created);
        && old(secret.name) in after.secrets
        && after.secrets[old(secret.name)] == old(secret.Value()).(created := if created == 0 then now else created)
        && (forall n :: n != old(secret.name) ==> (n in after.secrets <==> n in before.secrets))
        && (forall n :: n != old(secret.name) && n in before.secrets ==> after.secrets[n] == before.secrets[n])
        && after.authorities == before.authorities
      ensures !ok ==> unchanged(file)
    {
      hide AllHold;
      replaced := false;
      ok := valid(secret.Value());
      if !ok {
        return;
      }
      SetCreated(secret, now);
      ok, replaced := PutCopy(secret, at);
    }

    // Stores a copy of the secret as it is.
    method PutCopy(secret: Secret, at: Stamp) returns (ok: bool, replaced: bool)
      requires Valid() && Foreign(secret)
      modifies this, file
      ensures Valid() && key == old(key) && secret.Value() == old(secret.Value())
      ensures ok <==> old(Contents()).Some?
      ensures ok ==>
        && Contents() == Some(Apply(old(Contents()).value, Put(old(secret.name), old(secret.Value()))))
        && (replaced <==> old(secret.name) in old(Contents()).value.secrets)
        && file.versions == old(file.versions) + [Version(at, Contents().value)]
      ensures !ok ==> unchanged(file)
    {
      hide AllHold;
      replaced := false;
      ok := LockAndReload();
      if !ok {
        return;
      }
      replaced := secret.name in document.secrets;
      var written := CopyWith(document, secret);
      WriteDocument(written, at);
    }

    // Deletes a secret. A name that is not there changes nothing.
    method DeleteSecret(name: string, at: Stamp) returns (ok: bool, found: bool)
      requires Valid()
      modifies this, file
      ensures Valid() && key == old(key) && (ok <==> old(Contents()).Some?)
      ensures found <==> ok && name in old(Contents()).value.secrets
      ensures found ==>
        && Contents() == Some(Apply(old(Contents()).value, Delete(name)))
        && file.versions == old(file.versions) + [Version(at, Contents().value)]
      ensures found ==>
        var before, after := old(Contents()).value, Contents().value;
        && name !in after.secrets
        && (forall n :: n != name ==> (n in after.secrets <==> n in before.secrets))
        && (forall n :: n != name && n in before.secrets ==> after.secrets[n] == before.secrets[n])
        && after.authorities == before.authorities
      ensures !found ==> unchanged(file)
    {
      hide AllHold;
      found := false;
      ok := LockAndReload();
      if !ok {
        return;
      }
      found := name in document.secrets;
      if !found {
        return;
      }
      var written := CopyDocument(document);
      written.Delete(name);
      WriteDocument(written, at);
    }

    // Stores the authority of a host.
    method SetAuthority(host: string, authority: Authority, now: int, at: Stamp) returns (ok: bool)
      requires Valid()
      modifies this, file
      ensures Valid() && key == old(key)
      ensures ok <==> host != "" && authority.key != "" && authority.certificate != "" && old(Contents()).Some?
      ensures ok ==>
        && Contents() == Some(Apply(old(Contents()).value, VaultProtocol.SetAuthority(host, IssuedAt(authority, now))))
        && file.versions == old(file.versions) + [Version(at, Contents().value)]
      ensures ok ==>
        var before, after, created := old(Contents()).value, Contents().value, authority.created;
        && host in after.authorities
        && after.authorities[host] == authority.(created := if created == 0 then now else created)
        && (forall h :: h != host ==> (h in after.authorities <==> h in before.authorities))
        && (forall h :: h != host && h in before.authorities ==> after.authorities[h] == before.authorities[h])
        && after.secrets == before.secrets
      ensures !ok ==> unchanged(file)
    {
      hide AllHold;
      if host == "" || authority.key == "" || authority.certificate == "" {
        return false;
      }
      ok := LockAndReload();
      if !ok {
        return;
      }
      var written := CopyDocument(document);
      written.SetAuthority(host, IssuedAt(authority, now));
      WriteDocument(written, at);
    }

    // Gives a copy of a secret. It always comes from a version with the size and
    // time of the file, and from the one that the file holds now when these tell
    // which it is.
    method FindSecret(name: string) returns (secret: Secret?)
      requires Valid()
      modifies this
      ensures Valid() && key == old(key)
      ensures secret != null ==> fresh(secret.Repr()) && Foreign(secret)
      ensures Answers() == old(Answers())
      ensures secret != null <==> Answers().Some? && name in Answers().value.secrets
      ensures secret != null ==> secret.Value() == Answers().value.secrets[name]
      ensures secret != null ==> exists v ::
        v in file.versions && v.stamp == file.stamp && name in v.document.secrets
            && secret.Value() == v.document.secrets[name]
      ensures StampTells(file.versions) && Contents().Some? ==>
        && (secret != null <==> name in Contents().value.secrets)
        && (secret != null ==> secret.Value() == Contents().value.secrets[name])
    {
      hide AllHold, StampTells;
      var ok := Reload();
      if !ok || name !in document.secrets {
        return null;
      }
      SecretOf(document, name);
      secret := CopySecret(document.secrets[name]);
      assert Version(loaded, document.Value()) in file.versions;
    }

    // Forgets the key and the cache. A locked vault answers nothing.
    method Lock()
      requires Valid()
      modifies this
      ensures Valid() && key == None && document == null && Contents() == None
    {
      key, document := None, null;
    }
  }

  function IssuedAt(authority: Authority, now: int): Authority {
    if authority.created == 0 then authority.(created := now) else authority
  }

  // Changes all that a secret reaches.
  method Overwrite(secret: Secret, text: string)
    modifies secret.Repr()
  {
    secret.name, secret.value := text, text;
    if secret.route != null {
      secret.route.upstream := text;
      if secret.route.methods != null && secret.route.methods.Length > 0 {
        secret.route.methods[0] := text;
      }
    }
    if secret.sign != null {
      secret.sign.fingerprint := text;
    }
    if secret.expose != null {
      secret.expose.variable := text;
    }
  }

  // Changing a returned secret never changes the vault: the next read gives
  // the secret as the file holds it.
  method ReadAfterChange(vault: Vault, name: string, text: string) returns (again: Secret?)
    requires vault.Valid()
    modifies vault
    ensures vault.Valid() && vault.Contents() == old(vault.Contents()) && vault.Answers() == old(vault.Answers())
    ensures again != null <==> vault.Answers().Some? && name in vault.Answers().value.secrets
    ensures again != null ==> again.Value() == vault.Answers().value.secrets[name]
    ensures StampTells(vault.file.versions) && vault.Contents().Some? ==> vault.Answers() == vault.Contents()
  {
    hide AllHold, StampTells, Secret.Value;
    var secret := vault.FindSecret(name);
    if secret != null {
      Overwrite(secret, text);
    }
    again := vault.FindSecret(name);
    AnswersFromFile(vault);
  }

  lemma AnswersFromFile(vault: Vault)
    requires vault.Valid()
    ensures StampTells(vault.file.versions) && vault.Contents().Some? ==> vault.Answers() == vault.Contents()
  {
    if vault.document != null {
      CacheIsFile(vault.loaded, vault.document.Value(), vault.file.versions);
    }
  }

  function CreatedAt(v: SecretValue, now: int): SecretValue {
    if v.created == 0 then v.(created := now) else v
  }

  method SetCreated(secret: Secret, now: int)
    modifies secret`created
    ensures secret.Value() == CreatedAt(old(secret.Value()), now) && secret.Repr() == old(secret.Repr())
  {
    if secret.created == 0 {
      secret.created := now;
    }
  }

  // A copy of the document that holds a copy of the secret too.
  method CopyWith(document: StoredDocument, secret: Secret) returns (written: StoredDocument)
    requires document.Valid()
    ensures written.Valid() && fresh(written.Repr())
    ensures written.Value() == Apply(old(document.Value()), Put(old(secret.name), old(secret.Value())))
  {
    hide AllHold;
    ghost var v := secret.Value();
    written := CopyDocument(document);
    assert secret.Value() == v;
    var copied := CopySecret(secret);
    assert copied.Value() == v && copied.name == v.name;
    written.Add(copied);
  }

  // Reads a document out of its objects, as it is encoded for sealing.
  method Encode(document: StoredDocument) returns (encoded: VaultDocument)
    requires document.Valid()
    ensures encoded == document.Value()
  {
    hide Secret.Value, Secret.Holds, Secret.Repr;
    forall n | n in document.secrets
      ensures document.secrets[n].Value() == document.contents[n]
    {
      SecretOf(document, n);
    }
    var secrets := map n | n in document.secrets :: document.secrets[n].Value();
    assert secrets == document.contents;
    encoded := Document(secrets, document.authorities);
  }

  lemma CacheIsFile(loaded: Stamp, cached: VaultDocument, versions: seq<Version<SecretValue, Authority>>)
    requires Version(loaded, cached) in versions
    ensures StampTells(versions) && loaded == versions[|versions| - 1].stamp ==>
            versions[|versions| - 1].document == cached
  {
    var i :| 0 <= i < |versions| && versions[i] == Version(loaded, cached);
  }

  // Builds new objects for a decoded document.
  method LoadDocument(contents: VaultDocument) returns (document: StoredDocument)
    ensures document.Valid() && document.Value() == contents && fresh(document.Repr())
  {
    hide AllHold;
    var secrets, objects := LoadSecrets(contents.secrets);
    document := new StoredDocument(secrets, contents.authorities, contents.secrets, objects);
    DocumentEquals(contents);
  }

  lemma DocumentEquals(contents: VaultDocument)
    ensures Document(contents.secrets, contents.authorities) == contents
  {
  }

  method LoadSecrets(contents: map<string, SecretValue>)
      returns (secrets: map<string, Secret>, ghost objects: set<object>)
    ensures fresh(objects) && secrets.Keys == contents.Keys && AllHold(secrets, contents, objects)
  {
    hide *;
    secrets, objects := map[], {};
    var rest := contents.Keys;
    NoneHold(contents);
    AllDone(rest, {}, {});
    assert secrets.Keys == {};
    while rest != {}
      invariant Splits(contents.Keys, secrets.Keys, rest)
      invariant fresh(objects) && AllHold(secrets, contents, objects)
      decreases |rest|
    {
      hide *;
      var name :| name in rest;
      SplitsOn(contents.Keys, secrets.Keys, rest, name);
      rest := rest - {name};
      ghost var added;
      secrets, added := LoadInto(contents[name], name, secrets, contents, objects);
      objects := objects + added;
    }
    AllDone(contents.Keys, secrets.Keys, rest);
  }

  method LoadInto(v: SecretValue, name: string, secrets: map<string, Secret>, ghost contents: map<string, SecretValue>,
                  ghost objects: set<object>)
      returns (more: map<string, Secret>, ghost added: set<object>)
    requires AllHold(secrets, contents, objects) && name in contents && v == contents[name]
    ensures more.Keys == secrets.Keys + {name} && fresh(added)
    ensures AllHold(more, contents, objects + added)
  {
    hide *;
    var secret := LoadSecret(v);
    added := secret.Repr();
    more := secrets[name := secret];
    AddCopy(secrets, contents, objects, name, secret, objects + added);
  }

  method LoadSecret(v: SecretValue) returns (secret: Secret)
    ensures fresh(secret.Repr()) && secret.Value() == v
  {
    var route: RouteSpec?, sign: SignSpec?, expose: ExposeSpec? := null, null, null;
    if v.route.Some? {
      route := LoadRoute(v.route.value);
    }
    if v.sign.Some? {
      sign := new SignSpec(v.sign.value.algorithm, v.sign.value.fingerprint);
    }
    if v.expose.Some? {
      expose := new ExposeSpec(v.expose.value);
    }
    secret := new Secret(v.name, v.mode, v.value, v.created, route, sign, expose);
  }

  method LoadRoute(v: RouteValue) returns (route: RouteSpec)
    ensures fresh(route.Repr()) && route.Value() == v
  {
    var methods: array?<string> := null;
    if v.methods.Some? {
      var names := v.methods.value;
      var copied := new string[|names|](i requires 0 <= i < |names| => names[i]);
      assert copied[..] == names;
      methods := copied;
    }
    route := new RouteSpec(v.upstream, v.rateLimit, methods);
  }

  // Creates the file of a new vault. It never replaces one that is there.
  method CreateVault(file: File, passphrase: string, derive: string -> Key, at: Stamp) returns (vault: Vault?)
    requires file.Valid()
    modifies file
    ensures file.Valid() && (vault != null <==> passphrase != "" && old(file.sealed) == None)
    ensures vault == null ==> unchanged(file)
    ensures vault != null ==>
            fresh(vault) && vault.file == file && vault.Valid() && vault.Contents() == Some(Document(map[], map[]))
  {
    if passphrase == "" || file.sealed.Some? {
      return null;
    }
    vault := new Vault(file, derive(passphrase));
    var empty := LoadDocument(Document(map[], map[]));
    vault.WriteDocument(empty, at);
  }

  // Opens the file with a passphrase. It succeeds exactly when the derived key
  // unseals the file.
  method OpenVault(file: File, passphrase: string, derive: string -> Key) returns (vault: Vault?)
    requires file.Valid()
    ensures vault != null <==> file.sealed.Some? && Unseal(file.sealed.value, derive(passphrase)).Some?
    ensures vault != null ==>
            fresh(vault) && vault.file == file && vault.Valid()
                && vault.Contents() == Unseal(file.sealed.value, derive(passphrase))
  {
    hide AllHold;
    vault := new Vault(file, derive(passphrase));
    var ok := vault.Reload();
    if !ok {
      vault := null;
    }
  }

  datatype Call =
    | Find(name: string)
    | PutNew(value: SecretValue)
    | DeleteNamed(name: string)
    | Authorize(host: string, authority: Authority)

  // Whatever is asked of a locked vault, it answers nothing, changes nothing and
  // stays locked.
  method UseLocked(vault: Vault, calls: seq<Call>, valid: SecretValue -> bool, now: int, at: Stamp)
      returns (answered: bool)
    requires vault.Valid()
    modifies vault, vault.file
    ensures vault.Valid() && vault.key == None && unchanged(vault.file)
    ensures !answered
  {
    hide AllHold;
    vault.Lock();
    answered := false;
    for i := 0 to |calls|
      invariant vault.Valid() && vault.key == None && unchanged(vault.file) && !answered
    {
      match calls[i]
      case Find(name) =>
        var secret := vault.FindSecret(name);
        answered := answered || secret != null;
      case PutNew(value) =>
        var secret := LoadSecret(value);
        var ok, replaced := vault.PutSecret(secret, valid, now, at);
        answered := answered || ok;
      case DeleteNamed(name) =>
        var ok, found := vault.DeleteSecret(name, at);
        answered := answered || ok;
      case Authorize(host, authority) =>
        var ok := vault.SetAuthority(host, authority, now, at);
        answered := answered || ok;
    }
  }

  // Two secrets have the same value exactly when they agree in every field, and in
  // every field of the objects they refer to.
  lemma ValueIsAllFields(secret: Secret, other: Secret)
    ensures secret.Value() == other.Value() <==>
      && secret.name == other.name && secret.mode == other.mode && secret.value == other.value
      && secret.created == other.created
      && SameRoute(secret.route, other.route) && SameSign(secret.sign, other.sign)
      && SameExpose(secret.expose, other.expose)
  {
  }

  ghost predicate SameRoute(route: RouteSpec?, other: RouteSpec?)
    reads route, other, if route == null then null else route.methods, if other == null then null else other.methods
  {
    if route == null || other == null then route == null && other == null
    else
      && route.upstream == other.upstream && route.rateLimit == other.rateLimit
      && (if route.methods == null || other.methods == null then route.methods == null && other.methods == null
          else route.methods[..] == other.methods[..])
  }

  ghost predicate SameSign(sign: SignSpec?, other: SignSpec?)
    reads sign, other
  {
    if sign == null || other == null then sign == null && other == null
    else sign.algorithm == other.algorithm && sign.fingerprint == other.fingerprint
  }

  ghost predicate SameExpose(expose: ExposeSpec?, other: ExposeSpec?)
    reads expose, other
  {
    if expose == null || other == null then expose == null && other == null else expose.variable == other.variable
  }
}
