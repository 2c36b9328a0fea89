/** Looking up user details behind a cache that may forget any entry at any time. */
module UserDetails {
  import opened Common

  datatype Detail = Detail(username: Option<string>)

  /** What the user service answers for an id: an error, or a body that may be null. */
  datatype Answer = Unavailable | Body(detail: Option<Detail>)

  type Service = string -> Answer

  /** The value of a lookup that asks the service. */
  function Uncached(service: Service, id: string): Option<Detail> {
    match service(id)
    case Unavailable => None
    case Body(detail) => detail
  }

  /** `userDetails?.username || 'Unknown User'` */
  function DisplayName(detail: Option<Detail>): string {
    if detail.Some? && detail.value.username.Some? && detail.value.username.value != ""
    then detail.value.username.value
    else "Unknown User"
  }

  class Lookup {
    var cache: map<string, Option<Detail>>

    /** Everything cached is an answer the service gives. */
    ghost predicate Valid(service: Service)
      reads this
    {
      forall id :: id in cache ==> service(id) == Body(cache[id])
    }

    constructor (ghost service: Service)
      ensures Valid(service)
    {
      cache := map[];
    }

    /** Expiry and eviction: any part of the cache may be gone. */
    method Forget()
      modifies this
      ensures forall id :: id in cache ==> id in old(cache) && cache[id] == old(cache)[id]
    {
      var kept: set<string> :| kept <= cache.Keys;
      cache := map id | id in kept :: cache[id];
    }

    method FetchUserDetails(service: Service, id: string) returns (detail: Option<Detail>)
      requires Valid(service)
      modifies this
      ensures Valid(service)
      ensures detail == if service(id).Body? then service(id).detail else None
    {
      Forget();
      if id in cache { return cache[id]; }
      match service(id)
      case Unavailable => return None;
      case Body(d) =>
        cache := cache[id := d];
        return d;
    }

    /** Every requested id gets exactly what a lookup without the cache returns. */
    method FetchUserDetailsBatch(service: Service, ids: seq<string>) returns (results: map<string, Option<Detail>>)
      requires Valid(service)
      modifies this
      ensures Valid(service)
      ensures results.Keys == set id | id in ids
      ensures forall id :: id in ids ==> results[id] == if service(id).Body? then service(id).detail else None
    {
      results := map[];
      var uncached := [];
      for i := 0 to |ids|
        invariant Valid(service)
        invariant forall id :: id in ids[..i] ==> id in results || id in uncached
        invariant forall id :: id in results ==> id in ids && results[id] == Uncached(service, id)
        invariant forall id :: id in uncached ==> id in ids
      {
        var id := ids[i];
        Forget();
        if id in cache {
          results := results[id := cache[id]];
        } else {
          uncached := uncached + [id];
        }
      }
      for i := 0 to |uncached|
        invariant Valid(service)
        invariant forall id :: id in ids ==> id in results || id in uncached[i..]
        invariant forall id :: id in results ==> id in ids && results[id] == Uncached(service, id)
      {
        var id := uncached[i];
        var detail := FetchUserDetails(service, id);
        results := results[id := detail];
      }
    }

    /** The names of the inbox rows are those of a service without a cache. */
    method NamePartners(service: Service, partners: seq<string>) returns (names: seq<string>)
      requires Valid(service)
      modifies this
      ensures Valid(service) && |names| == |partners|
      ensures forall k :: 0 <= k < |partners| ==> names[k] == DisplayName(Uncached(service, partners[k]))
      ensures forall k :: 0 <= k < |partners| ==>
                match service(partners[k])
                case Body(Some(Detail(Some(name)))) => names[k] == if name == "" then "Unknown User" else name
                case _ => names[k] == "Unknown User"
    {
      var details := FetchUserDetailsBatch(service, partners);
      names := seq(|partners|, k requires 0 <= k < |partners| => DisplayName(details[partners[k]]));
    }
  }
}
