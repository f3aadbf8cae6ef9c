/** Naming of the operator's own annotations, and cleaning of the essences from them,
    as in kopf/_cogs/configs/conventions.py. */
module Conventions {
  import opened Wrappers
  import opened Trees
  import opened Agreement

  const MARKER := "kopf-managed"
  const KNOWN_PREFIX := "kopf.zalando.org"
  const LAST_APPLIED := "kubectl.kubernetes.io/last-applied-configuration"

  // ----- Keys -----

  function FirstSlash(key: string): (i: nat)
    ensures i <= |key| && '/' !in key[..i]
    ensures '/' in key <==> i < |key|
    ensures i < |key| ==> key[i] == '/'
  {
    if key == [] || key[0] == '/' then 0
    else
      assert key == [key[0]] + key[1..];
      1 + FirstSlash(key[1..])
  }

  function PrefixOf(key: string): string { key[..FirstSlash(key)] }

  function NameOf(key: string): string
    requires '/' in key
  {
    key[FirstSlash(key) + 1..]
  }

  predicate EndsWith(s: string, tail: string) {
    |tail| <= |s| && s[|s| - |tail|..] == tail
  }

  /** The key reveals that its prefix is used by a Kopf-based operator. */
  predicate Marks(key: string) {
    '/' in key &&
    (NameOf(key) == MARKER || PrefixOf(key) == KNOWN_PREFIX || EndsWith(PrefixOf(key), "." + KNOWN_PREFIX))
  }

  function MarkedPrefixes(keys: set<string>): set<string> {
    set key | key in keys && Marks(key) :: PrefixOf(key)
  }

  method DetectMarkedPrefixes(keys: set<string>) returns (prefixes: set<string>)
    ensures prefixes == MarkedPrefixes(keys)
  {
    prefixes := {};
    var todo := keys;
    while todo != {}
      invariant todo <= keys
      invariant prefixes == MarkedPrefixes(keys - todo)
      decreases todo
    {
      var key :| key in todo;
      todo := todo - {key};
      assert keys - todo == (keys - (todo + {key})) + {key};
      if Marks(key) {
        prefixes := prefixes + {PrefixOf(key)};
      }
    }
    assert keys - {} == keys;
  }

  lemma KeyUnderPrefix(key: string, prefix: string)
    requires '/' !in prefix
    ensures prefix + "/" <= key <==> '/' in key && PrefixOf(key) == prefix
  {
    if prefix + "/" <= key {
      assert key[|prefix|] == (prefix + "/")[|prefix|] == '/';
      assert key[..|prefix|] == prefix;
    }
  }

  /** The annotation is not essential: it is some operator's own, or kubectl's. */
  predicate Dropped(key: string, keys: set<string>) {
    key == LAST_APPLIED || exists prefix :: prefix in MarkedPrefixes(keys) && prefix + "/" <= key
  }

  lemma DroppedByMark(key: string, keys: set<string>)
    ensures Dropped(key, keys) <==>
              key == LAST_APPLIED ||
              exists mark :: mark in keys && Marks(mark) && '/' in key && PrefixOf(key) == PrefixOf(mark)
  {
    forall mark | mark in keys && Marks(mark)
      ensures PrefixOf(mark) + "/" <= key <==> '/' in key && PrefixOf(key) == PrefixOf(mark)
    {
      KeyUnderPrefix(key, PrefixOf(mark));
    }
  }

  /** A slice `s[:n]`, where a negative end counts from the end. */
  function Cut(s: string, n: int): string {
    if n >= 0 then (if n <= |s| then s[..n] else s)
    else if -n <= |s| then s[..|s| + n] else ""
  }

  function SafeKey(key: string): string {
    seq(|key|, i requires 0 <= i < |key| =>
      if key[i] == '/' then '.' else if key[i] == '<' || key[i] == '>' then '_' else key[i])
  }

  /** How a storage names its annotations; `digest` is the hash suffix of overly long names. */
  datatype Naming = Naming(prefix: string, v1: bool, digest: string -> string) {
    function V1Key(key: string): string {
      var safe := SafeKey(key);
      var room := 63 - |prefix| - 1;
      var suffix := if |safe| <= room then "" else digest(safe);
      prefix + "/" + Cut(safe, room - |suffix|) + suffix
    }

    function V2Key(key: string): string {
      var suffix := if |key| > 63 then digest(key) else "";
      var room := if |suffix| < 63 then 63 - |suffix| else 0;
      prefix + "/" + Cut(SafeKey(key), room) + suffix
    }

    /** The keys to write to and to read from, the preferred one first. */
    function Keys(key: string): (keys: seq<string>)
      ensures |keys| > 0
      ensures forall k :: k in keys ==> prefix + "/" <= k
    {
      [V2Key(key)] + (if v1 && V1Key(key) != V2Key(key) then [V1Key(key)] else [])
    }

    function MarkerKey(): string { prefix + "/" + MARKER }

    /** The prefixes of the framework's own domain need no marker. */
    predicate NeedsMarker() { prefix != "" && !("kopf." <= prefix) }
  }

  /** Only the characters that are not for annotations are replaced, one by one. */
  lemma SafeKeysAreSafe(key: string)
    ensures |SafeKey(key)| == |key|
    ensures '/' !in SafeKey(key) && '<' !in SafeKey(key) && '>' !in SafeKey(key)
    ensures forall i :: 0 <= i < |key| && key[i] !in "/<>" ==> SafeKey(key)[i] == key[i]
    ensures SafeKey(SafeKey(key)) == SafeKey(key)
  {
    var safe := SafeKey(key);
    forall i | 0 <= i < |key| ensures safe[i] !in "/<>" {
    }
    assert forall i :: 0 <= i < |safe| ==> safe[i] != '/' && safe[i] != '<' && safe[i] != '>';
    assert SafeKey(safe) == safe;
  }

  lemma NameUnderPrefix(prefix: string, name: string)
    requires '/' !in prefix
    ensures var key := prefix + "/" + name;
            '/' in key && PrefixOf(key) == prefix && NameOf(key) == name
  {
    var key := prefix + "/" + name;
    assert prefix + "/" <= key;
    KeyUnderPrefix(key, prefix);
  }

  lemma PresentNameIs(naming: Naming, key: string)
    requires |naming.digest(key)| < 63
    ensures naming.V2Key(key) == naming.prefix + "/" + ShortName(SafeKey(key), naming.digest(key))
  {
    if |key| <= 63 {
      assert naming.prefix + "/" + SafeKey(key) + "" == naming.prefix + "/" + SafeKey(key);
    }
  }

  lemma FullName(prefix: string, name: string, full: string)
    requires '/' !in prefix && full == prefix + "/" + name
    ensures '/' in full && PrefixOf(full) == prefix && NameOf(full) == name
  {
    NameUnderPrefix(prefix, name);
  }

  /** As much of the id as possible. */
  function ShortName(safe: string, suffix: string): (name: string)
    requires |suffix| < 63
    ensures |name| == if |safe| <= 63 then |safe| else 63
  {
    if |safe| <= 63 then safe else safe[..63 - |suffix|] + suffix
  }

  /** The name in an annotation fits into what Kubernetes allows: it is the whole id if that fits; or else its beginning
      with its digest, as long as possible. */
  lemma NamesFit(naming: Naming, key: string)
    requires '/' !in naming.prefix && |naming.digest(key)| < 63
    ensures var full := naming.V2Key(key);
            && '/' in full && PrefixOf(full) == naming.prefix
            && NameOf(full) == ShortName(SafeKey(key), naming.digest(key))
  {
    PresentNameIs(naming, key);
    FullName(naming.prefix, ShortName(SafeKey(key), naming.digest(key)), naming.V2Key(key));
  }

  lemma CutUnderPrefix(prefix: string, name: string, suffix: string)
    requires |prefix| + 1 + |suffix| <= 63 < |prefix| + 1 + |name|
    ensures var room := 63 - |prefix| - 1 - |suffix|;
            prefix + "/" + (name[..room] + suffix) == (prefix + "/" + name)[..63 - |suffix|] + suffix
  {
    var room := 63 - |prefix| - 1 - |suffix|;
    assert (prefix + "/" + name)[..63 - |suffix|] == prefix + "/" + name[..room];
  }

  lemma OlderNameIs(naming: Naming, key: string)
    requires |naming.prefix| + 1 + |naming.digest(SafeKey(key))| <= 63
    ensures var safe, room := SafeKey(key), 63 - |naming.prefix| - 1;
            var suffix := naming.digest(safe);
            naming.V1Key(key)
            == naming.prefix + "/" + if |safe| <= room then safe else safe[..room - |suffix|] + suffix
  {
    if |SafeKey(key)| <= 63 - |naming.prefix| - 1 {
      assert naming.prefix + "/" + SafeKey(key) + "" == naming.prefix + "/" + SafeKey(key);
    }
  }

  /** The older names fit as a whole, with the prefix, if it leaves a place for the digest. */
  lemma OlderNamesFit(naming: Naming, key: string)
    requires '/' !in naming.prefix && |naming.prefix| + 1 + |naming.digest(SafeKey(key))| <= 63
    ensures var full, suffix := naming.V1Key(key), naming.digest(SafeKey(key));
            var whole := naming.prefix + "/" + SafeKey(key);
            && '/' in full && PrefixOf(full) == naming.prefix
            && |full| == (if |whole| <= 63 then |whole| else 63)
            && full == if |whole| <= 63 then whole else whole[..63 - |suffix|] + suffix
  {
    var safe, room := SafeKey(key), 63 - |naming.prefix| - 1;
    var suffix := naming.digest(safe);
    var name := if |safe| <= room then safe else safe[..room - |suffix|] + suffix;
    OlderNameIs(naming, key);
    NameUnderPrefix(naming.prefix, name);
    if |safe| > room { CutUnderPrefix(naming.prefix, safe, suffix); }
  }

  /** Both the present name and the older one are in use, if the older ones are supported; the present one is first. */
  lemma BothNamesAreUsed(naming: Naming, key: string)
    ensures var keys := naming.Keys(key);
            && keys[0] == naming.V2Key(key)
            && (forall k :: k in keys <==> k == naming.V2Key(key) || (naming.v1 && k == naming.V1Key(key)))
            && (forall i, j :: 0 <= i < j < |keys| ==> keys[i] != keys[j])
  {
  }

  /** Annotations of a replica set that a deployment owns are overwritten by Kubernetes, so they are named apart. */
  function MarkKey(key: string, body: Value): string
    requires body.Obj? && Child(body, "metadata").Obj?
  {
    var owners := ResolveOr(body, ["metadata", "ownerReferences"], List([]));
    if && ResolveOr(body, ["kind"], Null) == Scalar(Text("ReplicaSet"))
       && owners.List?
       && exists owner :: owner in owners.items && ResolveOr(owner, ["kind"], Null) == Scalar(Text("Deployment"))
    then key + "-ofDRS" else key
  }

  // ----- Essences -----

  predicate Falsy(v: Value) {
    v == Null || v == EMPTY || v == List([]) ||
    v == Scalar(Text("")) || v == Scalar(Number(0)) || v == Scalar(Truth(false))
  }

  /** The stanzas that the framework looks into are dicts, if present. */
  predicate Shaped(v: Value) {
    && v.Obj?
    && Child(v, "metadata").Obj?
    && Child(Child(v, "metadata"), "annotations").Obj?
    && Child(v, "status").Obj?
  }

  function Meta(v: Value): map<string, Value>
    requires Shaped(v)
  {
    Child(v, "metadata").members
  }

  function Annotations(v: Value): map<string, Value>
    requires Shaped(v)
  {
    Child(Child(v, "metadata"), "annotations").members
  }

  function WithoutAnnotations(e: Value, keys: set<string>): (r: Value)
    requires Shaped(e)
    ensures Shaped(r) && Annotations(r) == Annotations(e) - keys
  {
    if "metadata" in e.members && "annotations" in Meta(e) then
      Obj(e.members["metadata" := Obj(Meta(e)["annotations" := Obj(Annotations(e) - keys)])])
    else e
  }

  function DropIfFalsy(m: map<string, Value>, key: string): map<string, Value> {
    if key in m && Falsy(m[key]) then m - {key} else m
  }

  function WithoutEmptyStanzas(e: Value): (r: Value)
    requires Shaped(e)
    ensures Shaped(r) && PartOf(r, e)
  {
    PartOfItself(e);
    var meta := DropIfFalsy(DropIfFalsy(Meta(e), "annotations"), "labels");
    var cleaned := if "metadata" in e.members then e.members["metadata" := Obj(meta)] else e.members;
    Obj(DropIfFalsy(DropIfFalsy(cleaned, "metadata"), "status"))
  }
}
