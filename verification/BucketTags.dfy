/** The bucket record, its parsing, and the migration of protocol flags out of the bucket tags. */
module BucketTags {
  import opened Common

  /** The bytes of a configuration document; no bytes stand for a missing one. */
  type Data = string
  type Tags = map<string, string>

  const S3_ENABLED := "__obstor_s3_enabled"
  const SFTP_ENABLED := "__obstor_sftp_enabled"
  const RESERVED_PREFIX := "__obstor_"

  const ENABLED_OBJECT_LOCK: Data :=
    "<ObjectLockConfiguration xmlns=\"http://s3.amazonaws.com/doc/2006-03-01/\">" +
    "<ObjectLockEnabled>Enabled</ObjectLockEnabled></ObjectLockConfiguration>"
  const ENABLED_VERSIONING: Data :=
    "<VersioningConfiguration xmlns=\"http://s3.amazonaws.com/doc/2006-03-01/\">" +
    "<Status>Enabled</Status></VersioningConfiguration>"

  datatype Protocols = Protocols(s3: bool, sftp: bool)

  const DEFAULT_PROTOCOLS := Protocols(true, false)

  datatype ConfigFile =
    | Policy | Notification | Lifecycle | ObjectLock | Versioning | Encryption
    | Tagging | Protocol | Quota | Replication | Targets

  datatype Metadata = Metadata(
    policy: Data, notification: Data, lifecycle: Data, objectLock: Data, versioning: Data, encryption: Data,
    tagging: Data, protocol: Data, quota: Data, replication: Data, targets: Data)

  const NEW_METADATA := Metadata([], [], [], [], [], [], [], [], [], [], [])

  function Get(m: Metadata, file: ConfigFile): Data {
    match file
    case Policy => m.policy
    case Notification => m.notification
    case Lifecycle => m.lifecycle
    case ObjectLock => m.objectLock
    case Versioning => m.versioning
    case Encryption => m.encryption
    case Tagging => m.tagging
    case Protocol => m.protocol
    case Quota => m.quota
    case Replication => m.replication
    case Targets => m.targets
  }

  function Put(m: Metadata, file: ConfigFile, data: Data): Metadata {
    match file
    case Policy => m.(policy := data)
    case Notification => m.(notification := data)
    case Lifecycle => m.(lifecycle := data)
    case ObjectLock => m.(objectLock := data)
    case Versioning => m.(versioning := data)
    case Encryption => m.(encryption := data)
    case Tagging => m.(tagging := data)
    case Protocol => m.(protocol := data)
    case Quota => m.(quota := data)
    case Replication => m.(replication := data)
    case Targets => m.(targets := data)
  }

  /** The libraries that read and write documents: tags as XML, protocol flags as JSON, and for all other
      documents whether they can be read. */
  datatype Libraries = Libraries(
    parseTags: Data -> Option<Tags>, marshalTags: Tags -> Option<Data>,
    parseProtocols: Data -> Option<Protocols>, marshalProtocols: Protocols -> Data,
    accepts: (ConfigFile, Data) -> bool)
  {
    /** What was written is read back. */
    ghost predicate Lawful() {
      && (forall t :: t != map[] && marshalTags(t).Some? ==>
            marshalTags(t).value != [] && parseTags(marshalTags(t).value) == Some(t))
      && (forall p :: marshalProtocols(p) != [] && parseProtocols(marshalProtocols(p)) == Some(p))
    }
  }

  type Codec = l: Libraries | l.Lawful()
    witness SMALL_LIBRARIES

  // A small codec, which meets the two laws and serves the examples. It reads one text of tags.
  const SMALL_LIBRARIES := Libraries(TextToTags, TagsToText, TextToProtocols, ProtocolsToText, (f, d) => true)

  function TextToTags(d: Data): Option<Tags> {
    if d == "s3 off" then Some(map[S3_ENABLED := "false"]) else None
  }

  function TagsToText(t: Tags): Option<Data> {
    if t == map[S3_ENABLED := "false"] then Some("s3 off") else None
  }

  function TextToProtocols(d: Data): Option<Protocols> {
    if |d| == 2 then Some(Protocols(d[0] == '1', d[1] == '1')) else None
  }

  function ProtocolsToText(p: Protocols): Data {
    [if p.s3 then '1' else '0', if p.sftp then '1' else '0']
  }

  lemma TagsReadBack(c: Codec, t: Tags)
    requires t != map[] && c.marshalTags(t).Some?
    ensures c.marshalTags(t).value != [] && c.parseTags(c.marshalTags(t).value) == Some(t)
  {
  }

  lemma ProtocolsReadBack(c: Codec, p: Protocols)
    ensures c.marshalProtocols(p) != [] && c.parseProtocols(c.marshalProtocols(p)) == Some(p)
  {
  }

  // ---------------------------------------------------------------- protocol settings

  /** Case-insensitive comparison with "false", where a long s also counts as an s. */
  predicate IsFalse(v: string) {
    |v| == 5 && v[0] in "fF" && v[1] in "aA" && v[2] in "lL" && (v[3] in "sS" || v[3] == '\U{017F}') && v[4] in "eE"
  }

  function FromTags(tags: Tags): Protocols {
    Protocols(
      if S3_ENABLED in tags then !IsFalse(tags[S3_ENABLED]) else DEFAULT_PROTOCOLS.s3,
      if SFTP_ENABLED in tags then !IsFalse(tags[SFTP_ENABLED]) else DEFAULT_PROTOCOLS.sftp)
  }

  /** The settings in force: the dedicated document if there is one, else old tags, else defaults;
      none if the document cannot be read. */
  function ProtocolSettings(c: Codec, protocol: Data, tags: Option<Tags>): Option<Protocols> {
    if protocol != [] then c.parseProtocols(protocol)
    else if tags.Some? then Some(FromTags(tags.value))
    else Some(DEFAULT_PROTOCOLS)
  }

  function LowerCase(c: char): char {
    if 'A' <= c <= 'Z' then (c as int - 'A' as int + 'a' as int) as char else if c == '\U{017F}' then 's' else c
  }

  /** "false" in small and capital letters. */
  predicate SaysFalse(v: string) {
    |v| == |"false"| && forall i :: 0 <= i < |v| ==> LowerCase(v[i]) == "false"[i]
  }

  lemma IsFalseSays(v: string)
    ensures IsFalse(v) <==> SaysFalse(v)
  {
    if |v| == 5 {
      assert SaysFalse(v) <==>
        && LowerCase(v[0]) == 'f' && LowerCase(v[1]) == 'a' && LowerCase(v[2]) == 'l' && LowerCase(v[3]) == 's'
        && LowerCase(v[4]) == 'e';
    }
  }

  /** The settings for every combination of a protocol document and the two flags: a document alone counts; without
      one, S3 is on unless its flag says false, and SFTP is off unless its flag is there and does not say false. */
  lemma SettingsInForce(c: Codec, protocol: Data, tags: Option<Tags>)
    ensures protocol != [] ==> ProtocolSettings(c, protocol, tags) == c.parseProtocols(protocol)
    ensures protocol == [] ==>
              var flags := if tags.Some? then tags.value else map[];
              ProtocolSettings(c, protocol, tags) ==
                Some(Protocols(!(S3_ENABLED in flags && SaysFalse(flags[S3_ENABLED])),
                               SFTP_ENABLED in flags && !SaysFalse(flags[SFTP_ENABLED])))
  {
    if tags.Some? && S3_ENABLED in tags.value { IsFalseSays(tags.value[S3_ENABLED]); }
    if tags.Some? && SFTP_ENABLED in tags.value { IsFalseSays(tags.value[SFTP_ENABLED]); }
    hide IsFalse, SaysFalse;
  }

  predicate HasLegacy(tags: Tags) {
    S3_ENABLED in tags || SFTP_ENABLED in tags
  }

  function WithoutLegacy(tags: Tags): Tags {
    tags - {S3_ENABLED, SFTP_ENABLED}
  }

  function MarshalBucketTags(c: Codec, tags: Tags): Option<Data> {
    if tags == map[] then Some([]) else c.marshalTags(tags)
  }

  /** The tags in a tagging document. */
  function TagsIn(c: Codec, tagging: Data): Tags {
    var tags := ParseTags(c, tagging);
    if tags.Some? && tags.value.Some? then tags.value.value else map[]
  }

  // ---------------------------------------------------------------- parsing and migration

  /** A record and its parsed tags. */
  datatype Parsed = Parsed(meta: Metadata, tags: Option<Tags>)

  predicate Reads(c: Codec, m: Metadata, file: ConfigFile) {
    Get(m, file) == [] || c.accepts(file, Get(m, file))
  }

  function ParseTags(c: Codec, tagging: Data): Option<Option<Tags>> {
    if tagging == [] then Some(None)
    else match c.parseTags(tagging)
      case None => None
      case Some(tags) => Some(Some(tags))
  }

  /** A bucket with the plain object-lock document has versioning. */
  function Versioned(m: Metadata): Metadata {
    if m.objectLock == ENABLED_OBJECT_LOCK then m.(versioning := ENABLED_VERSIONING) else m
  }

  predicate OthersRead(c: Codec, m: Metadata) {
    && Reads(c, m, Policy) && Reads(c, m, Notification) && Reads(c, m, Lifecycle) && Reads(c, m, Encryption)
    && Reads(c, m, ObjectLock) && Reads(c, m, Versioning) && Reads(c, m, Quota) && Reads(c, m, Replication)
    && Reads(c, m, Targets)
  }

  function ParseAll(c: Codec, m: Metadata): Option<Parsed> {
    var tags := ParseTags(c, m.tagging);
    if tags.None? || ProtocolSettings(c, m.protocol, tags.value).None? || !OthersRead(c, Versioned(m)) then None
    else Some(Parsed(Versioned(m), tags.value))
  }

  /** A document can be read if it is missing or its library reads it. */
  predicate Readable(c: Codec, file: ConfigFile, data: Data) {
    || data == []
    || (match file
        case Tagging => c.parseTags(data).Some?
        case Protocol => c.parseProtocols(data).Some?
        case _ => c.accepts(file, data))
  }

  ghost predicate AllReadable(c: Codec, m: Metadata) {
    forall file :: Readable(c, file, Get(m, file))
  }

  lemma OthersReadable(c: Codec, m: Metadata)
    ensures OthersRead(c, m) <==> forall f :: f != Tagging && f != Protocol ==> Readable(c, f, Get(m, f))
  {
    if OthersRead(c, m) {
      forall f | f != Tagging && f != Protocol ensures Readable(c, f, Get(m, f)) { assert Reads(c, m, f); }
    }
    if forall f :: f != Tagging && f != Protocol ==> Readable(c, f, Get(m, f)) {
      forall f | f != Tagging && f != Protocol ensures Reads(c, m, f) { assert Readable(c, f, Get(m, f)); }
      hide Reads, Readable, Get;
    }
  }

  lemma FlagsReadable(c: Codec, m: Metadata)
    ensures ParseTags(c, m.tagging).Some? <==> Readable(c, Tagging, Get(m, Tagging))
    ensures forall tags :: ProtocolSettings(c, m.protocol, tags).Some? <==> Readable(c, Protocol, Get(m, Protocol))
  {
  }

  /** A record parses if and only if each of its documents can be read, once object lock has switched versioning
      on. */
  lemma ParsesIfReadable(c: Codec, m: Metadata)
    ensures ParseAll(c, m).Some? <==> AllReadable(c, Versioned(m))
  {
    var n := Versioned(m);
    assert n.tagging == m.tagging && n.protocol == m.protocol;
    hide Versioned, OthersRead, ParseTags, ProtocolSettings, Readable, Get;
    OthersReadable(c, n);
    FlagsReadable(c, n);
    if ParseAll(c, m).Some? {
      forall f ensures Readable(c, f, Get(n, f)) {}
    }
  }

  datatype Migration = Unchanged | Migrated(meta: Metadata) | Failed

  function Migrate(c: Codec, p: Parsed): Migration {
    if p.tags.None? || !HasLegacy(p.tags.value) then Unchanged
    else
      var settings := ProtocolSettings(c, p.meta.protocol, p.tags);
      if settings.None? then Failed
      else
        var protocol := if p.meta.protocol == [] then c.marshalProtocols(settings.value) else p.meta.protocol;
        match MarshalBucketTags(c, WithoutLegacy(p.tags.value))
        case None => Failed
        case Some(tagging) => Migrated(p.meta.(protocol := protocol, tagging := tagging))
  }

  function TagsOf(p: Parsed): Tags {
    if p.tags.Some? then p.tags.value else map[]
  }

  /** The migrated tags parse again, to the tags without the two flags. */
  lemma MigratedTags(c: Codec, tags: Tags, tagging: Data)
    requires MarshalBucketTags(c, WithoutLegacy(tags)) == Some(tagging)
    ensures ParseTags(c, tagging).Some?
    ensures ParseTags(c, tagging).value == if WithoutLegacy(tags) == map[] then None else Some(WithoutLegacy(tags))
  {
    if WithoutLegacy(tags) != map[] { TagsReadBack(c, WithoutLegacy(tags)); }
  }

  lemma OthersUntouched(c: Codec, m: Metadata, protocol: Data, tagging: Data)
    requires Versioned(m) == m && OthersRead(c, m)
    ensures var n := m.(protocol := protocol, tagging := tagging);
            Versioned(n) == n && OthersRead(c, n)
  {
    var n := m.(protocol := protocol, tagging := tagging);
    assert forall f :: f != Protocol && f != Tagging ==> Get(n, f) == Get(m, f);
  }

  /** Migrating, saving and reading again always works; it keeps the settings in force, drops exactly the
      two flags from the tags, leaves a dedicated protocol document and every other document as they
      were, and a second migration finds nothing to do. */
  lemma MigrationKeepsMeaning(c: Codec, m: Metadata)
    requires ParseAll(c, m).Some? && Migrate(c, ParseAll(c, m).value).Migrated?
    ensures var before := ParseAll(c, m).value;
            var after := ParseAll(c, Migrate(c, before).meta);
            && after.Some?
            && ProtocolSettings(c, after.value.meta.protocol, after.value.tags)
                 == ProtocolSettings(c, before.meta.protocol, before.tags)
            && TagsOf(after.value) == TagsOf(before) - {S3_ENABLED, SFTP_ENABLED}
            && (before.meta.protocol != [] ==> after.value.meta.protocol == before.meta.protocol)
            && (forall f :: f != Tagging && f != Protocol ==> Get(after.value.meta, f) == Get(before.meta, f))
            && Migrate(c, after.value) == Unchanged
            && after.value.meta == Migrate(c, before).meta
  {
    hide OthersRead, ParseTags;
    var before := ParseAll(c, m).value;
    var next := Migrate(c, before).meta;
    MigratedTags(c, before.tags.value, next.tagging);
    ProtocolsReadBack(c, ProtocolSettings(c, before.meta.protocol, before.tags).value);
    OthersUntouched(c, before.meta, next.protocol, next.tagging);
  }

  /** Only tags with one of the flags are migrated. */
  lemma MigratesOnlyFlags(c: Codec, m: Metadata)
    requires ParseAll(c, m).Some?
    ensures Migrate(c, ParseAll(c, m).value) == Unchanged <==>
              S3_ENABLED !in TagsOf(ParseAll(c, m).value) && SFTP_ENABLED !in TagsOf(ParseAll(c, m).value)
  {
  }

  // ---------------------------------------------------------------- public and reserved tags

  predicate Reserved(key: string) {
    RESERVED_PREFIX <= key
  }

  function UserTags(m: Tags): Tags {
    map k | k in m && !Reserved(k) :: m[k]
  }

  method PartitionBucketTags(m: Tags) returns (user: Tags, reserved: Tags)
    ensures user == UserTags(m)
    ensures user.Keys !! reserved.Keys && user + reserved == m
    ensures forall k :: k in reserved <==>
              k in m && |k| >= |RESERVED_PREFIX| && k[..|RESERVED_PREFIX|] == RESERVED_PREFIX
  {
    user, reserved := map[], map[];
    var keys := m.Keys;
    while keys != {}
      invariant keys <= m.Keys
      invariant forall k :: k in user <==> k in m && k !in keys && !Reserved(k)
      invariant forall k :: k in reserved <==> k in m && k !in keys && Reserved(k)
      invariant forall k :: k in user ==> user[k] == m[k]
      invariant forall k :: k in reserved ==> reserved[k] == m[k]
      decreases |keys|
    {
      var k :| k in keys;
      if Reserved(k) {
        reserved := reserved[k := m[k]];
      } else {
        user := user[k := m[k]];
      }
      keys := keys - {k};
    }
  }

  /** Migration does not change the tags a user sees. */
  lemma UserTagsKept(tags: Tags)
    ensures UserTags(WithoutLegacy(tags)) == UserTags(tags)
  {
    assert Reserved(S3_ENABLED) && Reserved(SFTP_ENABLED);
  }

  // ---------------------------------------------------------------- the record in memory

  class BucketMetadata {
    var meta: Metadata
    var tags: Option<Tags>

    constructor (m: Metadata)
      ensures meta == m && tags == None
    {
      meta, tags := m, None;
    }

    /** Parse the tags, then the rest; a failure leaves the tags parsed so far. */
    method ParseAllConfigs(c: Codec) returns (ok: bool)
      modifies this
      ensures var m := old(meta);
              var n := if m.objectLock == ENABLED_OBJECT_LOCK then m.(versioning := ENABLED_VERSIONING) else m;
              && (ok <==> AllReadable(c, n))
              && (ok ==> meta == n && tags == if n.tagging == [] then None else c.parseTags(n.tagging))
      ensures ok <==> ParseAll(c, old(meta)).Some?
      ensures ok ==> Parsed(meta, tags) == ParseAll(c, old(meta)).value
      ensures !ok ==> meta == old(meta) || meta == Versioned(old(meta))
    {
      ParsesIfReadable(c, meta);
      if !(&& Reads(c, meta, Policy) && Reads(c, meta, Notification)
           && Reads(c, meta, Lifecycle) && Reads(c, meta, Encryption)) {
        return false;
      }
      if |meta.tagging| != 0 {
        tags := c.parseTags(meta.tagging);
        if tags.None? {
          return false;
        }
      } else {
        tags := None;
      }
      if ProtocolSettings(c, meta.protocol, tags).None? {
        return false;
      }
      if meta.objectLock == ENABLED_OBJECT_LOCK {
        meta := meta.(versioning := ENABLED_VERSIONING);
      }
      return Reads(c, meta, ObjectLock) && Reads(c, meta, Versioning) && Reads(c, meta, Quota)
          && Reads(c, meta, Replication) && Reads(c, meta, Targets);
    }

    /** Move the flags of parsed tags to the protocol document. */
    method MigrateBucketProtocolTags(c: Codec) returns (migrated: bool, ok: bool)
      modifies this
      ensures tags == old(tags)
      ensures match Migrate(c, old(Parsed(meta, tags)))
              case Unchanged => ok && !migrated && meta == old(meta)
              case Migrated(m) => ok && migrated && meta == m
              case Failed => !ok
    {
      if tags.None? {
        return false, true;
      }
      var legacy := tags.value;
      var hasS3, hasSFTP := S3_ENABLED in legacy, SFTP_ENABLED in legacy;
      if !hasS3 && !hasSFTP {
        return false, true;
      }
      var cfg := ProtocolSettings(c, meta.protocol, tags);
      if cfg.None? {
        return false, false;
      }
      if |meta.protocol| == 0 {
        meta := meta.(protocol := c.marshalProtocols(cfg.value));
      }
      legacy := legacy - {S3_ENABLED};
      legacy := legacy - {SFTP_ENABLED};
      assert legacy == WithoutLegacy(tags.value);
      var tagging := MarshalBucketTags(c, legacy);
      if tagging.None? {
        return true, false;
      }
      meta := meta.(tagging := tagging.value);
      return true, true;
    }
  }
}
