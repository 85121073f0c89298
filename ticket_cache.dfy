/** The support service's `SupportTicketCacheService` over Redis. Redis is a map from key to
    the stored value and the clock second at which it expires; `reachable` says whether the
    call reaches Redis. A call that fails is logged and swallowed: a write changes nothing and
    a read finds nothing. */
module TicketCache {
  import opened Wrappers
  import opened Ids
  import opened Tickets

  const SupportTicketKey := "support:ticket:"
  const AllTicketsKey := "support:tickets:all"

  /** Time-to-live in seconds: six hours, thirty minutes, one hour, and three hours for the
      list of all tickets. */
  const ActiveTtl := 21600
  const FinishedTtl := 1800
  const DefaultTtl := 3600
  const AllTicketsTtl := 10800

  datatype CachedValue = TicketValue(dto: SupportTicketDto) | ListValue(dtos: seq<SupportTicketDto>)
  datatype Entry = Entry(value: CachedValue, expiresAt: int)

  function TicketCacheKey(ticketId: Uuid): string
  {
    SupportTicketKey + UuidText(ticketId)
  }

  /** Every ticket has its own key, and no ticket key is the key of the list. */
  lemma TicketKeysAreDistinct(a: Uuid, b: Uuid)
    ensures TicketCacheKey(a) == TicketCacheKey(b) <==> a == b
    ensures TicketCacheKey(a) != AllTicketsKey
  {
    if TicketCacheKey(a) == TicketCacheKey(b) {
      assert UuidText(a) == TicketCacheKey(a)[|SupportTicketKey|..];
      assert UuidText(b) == TicketCacheKey(b)[|SupportTicketKey|..];
      UuidTextInjective(a, b);
    }
    assert TicketCacheKey(a)[14] == ':' && AllTicketsKey[14] == 's';
  }

  function StatusTtl(status: SupportStatus): (ttl: int)
    ensures status == Pending || status == InProgress ==> ttl == ActiveTtl
    ensures status == Closed || status == Resolved ==> ttl == FinishedTtl
    ensures status.Other? ==> ttl == DefaultTtl
  {
    match status
    case Pending => ActiveTtl
    case InProgress => ActiveTtl
    case Closed => FinishedTtl
    case Resolved => FinishedTtl
    case Other(_) => DefaultTtl
  }

  /** `determineTTL` and `determineTTLDto`: the same switch, written once for the entity and
      once for the DTO. */
  function DetermineTtl(ticket: SupportTicket): (ttl: int)
    ensures ttl > 0
    ensures ttl == StatusTtl(ticket.status)
  {
    match ticket.status
    case Pending => ActiveTtl
    case InProgress => ActiveTtl
    case Closed => FinishedTtl
    case Resolved => FinishedTtl
    case Other(_) => DefaultTtl
  }

  function DetermineTtlDto(dto: SupportTicketDto): (ttl: int)
    ensures ttl > 0
    ensures ttl == StatusTtl(dto.status)
  {
    match dto.status
    case Pending => ActiveTtl
    case InProgress => ActiveTtl
    case Closed => FinishedTtl
    case Resolved => FinishedTtl
    case Other(_) => DefaultTtl
  }

  /** The two TTL switches agree on a ticket and its DTO. */
  lemma TtlsAgree(ticket: SupportTicket)
    ensures DetermineTtl(ticket) == DetermineTtlDto(FromSupportTicket(ticket))
  {
  }

  /** The entry under `key` while it has not expired. */
  function Live(store: map<string, Entry>, key: string, now: int): (r: Option<CachedValue>)
    ensures r.Some? <==> key in store && now < store[key].expiresAt
    ensures r.Some? ==> r.value == store[key].value
  {
    if key in store && now < store[key].expiresAt then Some(store[key].value) else None
  }

  /** `getCachedTicket` on a store: a live ticket under the ticket's key; a value of another
      type fails its cast, which is caught like a store failure. */
  function TicketFrom(store: map<string, Entry>, ticketId: Uuid, now: int, reachable: bool)
    : (r: Option<SupportTicketDto>)
    ensures r.Some? <==> reachable && Live(store, TicketCacheKey(ticketId), now).Some?
                         && Live(store, TicketCacheKey(ticketId), now).value.TicketValue?
    ensures r.Some? ==> r.value == store[TicketCacheKey(ticketId)].value.dto
  {
    if !reachable then None
    else match Live(store, TicketCacheKey(ticketId), now)
      case Some(TicketValue(dto)) => Some(dto)
      case _ => None
  }

  /** `getCachedAllTickets` on a store. */
  function AllFrom(store: map<string, Entry>, now: int, reachable: bool)
    : (r: Option<seq<SupportTicketDto>>)
    ensures r.Some? <==> reachable && Live(store, AllTicketsKey, now).Some?
                         && Live(store, AllTicketsKey, now).value.ListValue?
    ensures r.Some? ==> r.value == store[AllTicketsKey].value.dtos
  {
    if !reachable then None
    else match Live(store, AllTicketsKey, now)
      case Some(ListValue(dtos)) => Some(dtos)
      case _ => None
  }

  /** The store after `cacheTicketDto(dto)` at clock `now`. */
  function PutTicket(store: map<string, Entry>, dto: SupportTicketDto, now: int): map<string, Entry>
  {
    store[TicketCacheKey(dto.supportTicketId) := Entry(TicketValue(dto), now + DetermineTtlDto(dto))]
  }

  function PutAll(store: map<string, Entry>, dtos: seq<SupportTicketDto>, now: int): map<string, Entry>
  {
    store[AllTicketsKey := Entry(ListValue(dtos), now + AllTicketsTtl)]
  }

  class SupportTicketCacheService {
    var store: map<string, Entry>

    constructor ()
      ensures store == map[]
    {
      store := map[];
    }

    method CacheTicketDto(dto: SupportTicketDto, now: int, reachable: bool)
      modifies this
      ensures store == if reachable then PutTicket(old(store), dto, now) else old(store)
    {
      if reachable {
        store := PutTicket(store, dto, now);
      }
    }

    /** `cacheTicket`: the ticket is mapped to its DTO and stored for the entity's TTL. */
    method CacheTicket(ticket: SupportTicket, now: int, reachable: bool)
      modifies this
      ensures store == if reachable then PutTicket(old(store), FromSupportTicket(ticket), now) else old(store)
    {
      if reachable {
        var dto := FromSupportTicket(ticket);
        TtlsAgree(ticket);
        store := store[TicketCacheKey(ticket.supportTicketId) := Entry(TicketValue(dto), now + DetermineTtl(ticket))];
      }
    }

    function GetCachedTicket(ticketId: Uuid, now: int, reachable: bool): (r: Option<SupportTicketDto>)
      reads this
      ensures r == TicketFrom(store, ticketId, now, reachable)
      ensures !reachable ==> r.None?
    {
      TicketFrom(store, ticketId, now, reachable)
    }

    method CacheAllTickets(dtos: seq<SupportTicketDto>, now: int, reachable: bool)
      modifies this
      ensures store == if reachable then PutAll(old(store), dtos, now) else old(store)
    {
      if reachable {
        store := PutAll(store, dtos, now);
      }
    }

    function GetCachedAllTickets(now: int, reachable: bool): (r: Option<seq<SupportTicketDto>>)
      reads this
      ensures r == AllFrom(store, now, reachable)
      ensures !reachable ==> r.None?
    {
      AllFrom(store, now, reachable)
    }

    method EvictTicket(ticketId: Uuid, reachable: bool)
      modifies this
      ensures store == if reachable then old(store) - {TicketCacheKey(ticketId)} else old(store)
    {
      if reachable {
        store := store - {TicketCacheKey(ticketId)};
      }
    }

    method EvictAllTickets(reachable: bool)
      modifies this
      ensures store == if reachable then old(store) - {AllTicketsKey} else old(store)
    {
      if reachable {
        store := store - {AllTicketsKey};
      }
    }
  }

  /** A cached ticket is read back under the same key until its TTL runs out, and not after. */
  lemma CachedTicketReadBack(store: map<string, Entry>, dto: SupportTicketDto, now: int, later: int)
    ensures now <= later < now + DetermineTtlDto(dto) ==>
              TicketFrom(PutTicket(store, dto, now), dto.supportTicketId, later, true) == Some(dto)
    ensures later >= now + DetermineTtlDto(dto) ==>
              TicketFrom(PutTicket(store, dto, now), dto.supportTicketId, later, true) == None
  {
  }

  /** Caching one ticket leaves every other ticket and the list as they were. */
  lemma CachingTicketTouchesOnlyItsKey(store: map<string, Entry>, dto: SupportTicketDto, now: int,
                                       other: Uuid, later: int, reachable: bool)
    requires other != dto.supportTicketId
    ensures TicketFrom(PutTicket(store, dto, now), other, later, reachable) == TicketFrom(store, other, later, reachable)
    ensures AllFrom(PutTicket(store, dto, now), later, reachable) == AllFrom(store, later, reachable)
  {
    TicketKeysAreDistinct(dto.supportTicketId, other);
  }

  /** The list is read back for three hours after it is cached. */
  lemma CachedListReadBack(store: map<string, Entry>, dtos: seq<SupportTicketDto>, now: int, later: int)
    requires now <= later < now + AllTicketsTtl
    ensures AllFrom(PutAll(store, dtos, now), later, true) == Some(dtos)
  {
  }

  /** After an eviction a read of that key finds nothing. */
  lemma EvictedTicketIsGone(store: map<string, Entry>, ticketId: Uuid, now: int, reachable: bool)
    ensures TicketFrom(store - {TicketCacheKey(ticketId)}, ticketId, now, reachable) == None
    ensures AllFrom(store - {AllTicketsKey}, now, reachable) == None
  {
  }
}
