/** The prekey handlers, each run from request to response over the table they update. */
module PrekeyController {
  import opened Common
  import opened PrekeyBundles
  import opened PrekeyTable

  datatype StoreReply =
    | Unauthenticated | MissingFields | InvalidBundle | DeviceMismatch
    | RateLimited(hours: int) | KeysUpdated | KeysStored | StoreFailed

  datatype PublishReply = NotSignedIn | BodyMissing | BundleUpdated | BundlePublished | PublishFailed

  datatype FetchReply = NotAuthenticated | DeviceRequired | NoKeys | Keys(deviceId: string, backup: Backup) | FetchFailed

  datatype GetReply = NoUser | NoBundle | Ok(deviceId: string, bundle: Bundle) | GetFailed

  /** Where a request to the database fails; a failing commit may or may not have been applied. */
  datatype Fault = NoFault | ReadFails | SaveFails | CommitFails(applied: bool)

  predicate Missing(s: Option<string>) {
    s == None || s == Some("")
  }

  /** The checks of storeSignalKeys before it touches the table; None when the request passes. */
  function Rejection(userId: Option<string>, deviceId: Option<string>, backup: Option<Backup>): Option<StoreReply> {
    if Missing(userId) then Some(Unauthenticated)
    else if Missing(deviceId) || backup == None then Some(MissingFields)
    else if backup.value.encrypted == "" || backup.value.iv == "" || backup.value.salt == "" || backup.value.version == 0
      then Some(InvalidBundle)
    else if backup.value.deviceId != deviceId.value then Some(DeviceMismatch)
    else None
  }

  /** `bundles.find` over the rows newest first. */
  method FindBundle(rows: seq<Row>, userId: string, needKey: bool) returns (i: int)
    ensures i == Newest(rows, userId, needKey)
  {
    i := |rows| - 1;
    while i >= 0 && !Usable(rows[i], userId, needKey)
      invariant -1 <= i < |rows|
      invariant forall j :: i < j < |rows| ==> !Usable(rows[j], userId, needKey)
    {
      i := i - 1;
    }
  }

  class Controller {
    var rows: seq<Row>

    constructor ()
      ensures rows == []
    {
      rows := [];
    }

    method StoreSignalKeys(userId: Option<string>, deviceId: Option<string>, encryptedBundle: Option<Backup>,
                           now: int, stamp: int, fault: Fault)
      returns (r: StoreReply)
      modifies this
      ensures r == Unauthenticated <==> userId == None || userId.value == ""
      ensures r == MissingFields <==>
                r != Unauthenticated && (deviceId == None || deviceId.value == "" || encryptedBundle == None)
      ensures r == InvalidBundle <==>
                && r != Unauthenticated && r != MissingFields
                && var b := encryptedBundle.value; (b.encrypted == "" || b.iv == "" || b.salt == "" || b.version == 0)
      ensures r == DeviceMismatch <==>
                && r != Unauthenticated && r != MissingFields && r != InvalidBundle
                && encryptedBundle.value.deviceId != deviceId.value
      ensures Rejection(userId, deviceId, encryptedBundle).Some? ==>
                r == Rejection(userId, deviceId, encryptedBundle).value && rows == old(rows)
      ensures Rejection(userId, deviceId, encryptedBundle) == None ==>
                var (u, d, b) := (userId.value, deviceId.value, encryptedBundle.value);
                var i := FindRow(old(rows), u, d);
                && (r == StoreFailed ==> fault in {ReadFails, SaveFails} && rows == old(rows))
                && (r.RateLimited? ==> i >= 0 && !StoreAccepted(old(rows), u, d, now) && rows == old(rows)
                                       && old(rows)[i].lastBackup.Some?
                                       && now - old(rows)[i].lastBackup.value < 24 * 3_600_000
                                       && r.hours == HoursRemaining(old(rows)[i].lastBackup.value, now))
                && (r == KeysUpdated || r == KeysStored ==>
                      StoreAccepted(old(rows), u, d, now) && (r == KeysUpdated <==> i >= 0)
                      && (i >= 0 && old(rows)[i].lastBackup.Some? ==> now - old(rows)[i].lastBackup.value >= 24 * 3_600_000)
                      && rows == Store(old(rows), u, d, b, now, stamp))
                && (r.KeysUpdated? || r.KeysStored? || r.StoreFailed? || r.RateLimited?)
                && (fault == NoFault ==> r != StoreFailed)
    {
      if Missing(userId) { return Unauthenticated; }
      if Missing(deviceId) || encryptedBundle == None { return MissingFields; }
      var backup := encryptedBundle.value;
      if backup.encrypted == "" || backup.iv == "" || backup.salt == "" || backup.version == 0 { return InvalidBundle; }
      if backup.deviceId != deviceId.value { return DeviceMismatch; }
      if fault == ReadFails { return StoreFailed; }

      var i := FindRow(rows, userId.value, deviceId.value);
      if i >= 0 {
        var existing := rows[i];
        if existing.lastBackup.Some? {
          if now - existing.lastBackup.value < BACKUP_INTERVAL_HOURS * MS_PER_HOUR {
            return RateLimited(HoursRemaining(existing.lastBackup.value, now));
          }
        }
        existing := existing.(bundle := Spread(existing.bundle, EMPTY_OBJECT.(backup := Some(backup))));
        existing := existing.(lastBackup := Some(stamp));
        if fault == SaveFails { return StoreFailed; }
        rows := rows[i := existing];
        return KeysUpdated;
      }
      var record := Row(userId.value, deviceId.value, EMPTY_OBJECT.(backup := Some(backup)), Some(stamp));
      if fault == SaveFails { return StoreFailed; }
      rows := rows + [record];
      return KeysStored;
    }

    /** A device's own backup, and nobody else's. */
    method GetSignalKeys(userId: Option<string>, deviceId: Option<string>, fault: Fault) returns (r: FetchReply)
      ensures r == NotAuthenticated <==> Missing(userId)
      ensures r == DeviceRequired <==> !Missing(userId) && Missing(deviceId)
      ensures r == FetchFailed <==> !Missing(userId) && !Missing(deviceId) && fault == ReadFails
      ensures r.Keys? ==>
                && Some(r.deviceId) == deviceId
                && exists i :: 0 <= i < |rows| && Some(rows[i].userId) == userId && rows[i].deviceId == r.deviceId
                               && rows[i].bundle.backup == Some(r.backup)
      ensures (r.Keys? || r == NoKeys) && OneRowPerDevice(rows) ==>
                forall i :: 0 <= i < |rows| && Some(rows[i].userId) == userId && Some(rows[i].deviceId) == deviceId
                            ==> rows[i].bundle.backup == if r.Keys? then Some(r.backup) else None
    {
      if Missing(userId) { return NotAuthenticated; }
      if Missing(deviceId) { return DeviceRequired; }
      if fault == ReadFails { return FetchFailed; }
      var i := FindRow(rows, userId.value, deviceId.value);
      if i < 0 || rows[i].bundle.backup == None { return NoKeys; }
      return Keys(rows[i].deviceId, rows[i].bundle.backup.value);
    }

    method PublishPrekey(userId: Option<string>, deviceId: Option<string>, bundle: Option<Bundle>, fault: Fault)
      returns (r: PublishReply)
      modifies this
      ensures r == BundleUpdated || r == BundlePublished ==>
                && !Missing(userId) && !Missing(deviceId) && bundle.Some?
                && rows == Publish(old(rows), userId.value, deviceId.value, bundle.value)
                && (r == BundleUpdated <==> FindRow(old(rows), userId.value, deviceId.value) >= 0)
      ensures r != BundleUpdated && r != BundlePublished ==> rows == old(rows)
      ensures r == NotSignedIn <==> Missing(userId)
      ensures r == BodyMissing <==> !Missing(userId) && (Missing(deviceId) || bundle == None)
      ensures r == PublishFailed ==> fault in {ReadFails, SaveFails}
    {
      if Missing(userId) { return NotSignedIn; }
      if Missing(deviceId) || bundle == None { return BodyMissing; }
      if fault == ReadFails { return PublishFailed; }
      var i := FindRow(rows, userId.value, deviceId.value);
      if i >= 0 {
        var existing := rows[i];
        existing := existing.(bundle := Spread(existing.bundle, bundle.value));
        if fault == SaveFails { return PublishFailed; }
        rows := rows[i := existing];
        return BundleUpdated;
      }
      if fault == SaveFails { return PublishFailed; }
      rows := rows + [Row(userId.value, deviceId.value, bundle.value, None)];
      return BundlePublished;
    }

    /**
     * A successful request pops the head of the user's queue and answers with it; a failing one answers nothing,
     * and leaves the table alone unless only the acknowledgement of its commit was lost.
     */
    method GetPrekeyBundle(userId: string, fault: Fault) returns (r: GetReply)
      modifies this
      ensures r == NoUser <==> userId == ""
      ensures r.Ok? ==>
                var i := ChosenRow(old(rows), userId);
                && i >= 0 && r.deviceId == old(rows)[i].deviceId
                && rows == AfterGet(old(rows), userId)
                && Pool(r.bundle) == HandedOut(old(rows), userId)
                && var queue := Queue(old(rows), userId);
                   Pool(r.bundle) == (if queue == [] then [] else [queue[0]])
                   && Queue(rows, userId) == (if queue == [] then [] else queue[1..])
      ensures r.Ok? ==>
                r.bundle.(preKeys := None) == old(rows)[ChosenRow(old(rows), userId)].bundle.(preKeys := None, backup := None)
      ensures !r.Ok? ==> rows == old(rows) || (fault == CommitFails(true) && rows == AfterGet(old(rows), userId))
      ensures r == NoBundle ==> ChosenRow(old(rows), userId) < 0
      ensures fault == NoFault && userId != "" ==>
                (r.Ok? <==> exists i :: 0 <= i < |old(rows)| && old(rows)[i].userId == userId
                                        && old(rows)[i].bundle.preKeys.Some?)
    {
      if userId == "" { return NoUser; }
      // The transaction works on what it read; `rows` changes only when it commits.
      if fault == ReadFails { return GetFailed; }
      var bundles := rows;
      var chosen := FindBundle(bundles, userId, true);
      if chosen < 0 {
        chosen := FindBundle(bundles, userId, false);
      }
      if chosen < 0 {
        if fault.CommitFails? { return GetFailed; }
        return NoBundle;
      }
      OneGet(bundles, userId);
      assert bundles[chosen].userId == userId && bundles[chosen].bundle.preKeys.Some?;
      var c := Consume(bundles[chosen].bundle);
      var deviceId := bundles[chosen].deviceId;
      if c.consumed {
        bundles := bundles[chosen := bundles[chosen].(bundle := c.storedBundle.value)];
        if fault == SaveFails { return GetFailed; }
        if fault == CommitFails(false) { return GetFailed; }
        rows := bundles;
        if fault.CommitFails? { return GetFailed; }
        return Ok(deviceId, c.clientBundle);
      }
      if fault.CommitFails? { return GetFailed; }
      return Ok(deviceId, c.clientBundle);
    }
  }
}
