/** The JSON column of the `prekeys` table and the pure one-time-prekey consumption. */
module PrekeyBundles {
  import opened Common

  datatype PreKey = PreKey(id: nat, publicKey: string)

  datatype SignedPreKey = SignedPreKey(id: nat, publicKey: string, signature: string)

  datatype Backup = Backup(encrypted: string, iv: string, salt: string, version: int, deviceId: string)

  /** A JSON object in which any field may be absent; `backup` is the `_encryptedKeyBundle` field. */
  datatype Bundle = Bundle(
    identityKey: Option<string>,
    registrationId: Option<nat>,
    signedPreKey: Option<SignedPreKey>,
    preKeys: Option<seq<PreKey>>,
    backup: Option<Backup>)

  const EMPTY_OBJECT := Bundle(None, None, None, None, None)

  /** `{ ...base, ...top }` */
  function Spread(base: Bundle, top: Bundle): Bundle {
    Bundle(Over(base.identityKey, top.identityKey),
           Over(base.registrationId, top.registrationId),
           Over(base.signedPreKey, top.signedPreKey),
           Over(base.preKeys, top.preKeys),
           Over(base.backup, top.backup))
  }

  predicate IsPrekeyBundle(b: Bundle) {
    b.preKeys.Some?
  }

  /** The one-time prekeys a row can hand out; a backup-only row has none. */
  function Pool(b: Bundle): seq<PreKey> {
    if b.preKeys.Some? then b.preKeys.value else []
  }

  datatype Consumption = Consumption(consumed: bool, clientBundle: Bundle, storedBundle: Option<Bundle>)

  /** consumeOneTimePreKey: the pool is split, in order, between the client and the store. */
  function Consume(b: Bundle): (r: Consumption)
    requires IsPrekeyBundle(b)
    ensures r.consumed <==> r.storedBundle.Some?
    ensures r.consumed <==> Pool(b) != []
    ensures |Pool(r.clientBundle)| == if r.consumed then 1 else 0
    ensures Pool(b) == Pool(r.clientBundle) + (if r.consumed then Pool(r.storedBundle.value) else [])
    ensures r.clientBundle.(preKeys := None) == b.(preKeys := None, backup := None)
    ensures r.consumed ==> r.storedBundle.value.(preKeys := b.preKeys) == b
  {
    var identity := EMPTY_OBJECT.(identityKey := b.identityKey, registrationId := b.registrationId,
                                  signedPreKey := b.signedPreKey);
    var keys := b.preKeys.value;
    if keys == [] then
      Consumption(false, identity.(preKeys := Some([])), None)
    else
      Consumption(true, identity.(preKeys := Some([keys[0]])), Some(b.(preKeys := Some(keys[1..]))))
  }
}
