/** The support service's `SupportTicketService`: who may create and change tickets, what
    each update changes, and when a resolution notice is sent. The repository is the sequence
    `tickets`; the id generator is the counter `nextId`. A transactional operation that fails
    puts `tickets` back as it was; Redis writes and Kafka messages already made stay made. */
module TicketService {
  import opened Wrappers
  import opened Ids
  import Repo
  import UserClient
  import RoleContext
  import RoleUtil
  import opened Tickets
  import TicketCache

  const UserIdMissing := "User ID is missing in request"
  const OnlyUsers := "Only users or higher roles can create tickets"
  const UserIdNotInHeader := "User ID not found in header"
  const OnlyStaff := "Only staff members can perform this action"
  const TicketNotFound := "Ticket not found"
  const NotOwner := "You can only update your own tickets"
  const ResolutionNotFound := "Resolution not found"

  datatype TicketError =
    | Unauthorized(message: string)
    | InvalidTicketDetails(message: string)
    /** A user-service call through the Feign client that failed. */
    | ClientFailure(userId: Uuid)
    /** `UUID.fromString` on a header that is not a UUID. */
    | BadUuid(text: string)
    | AttachmentFailed
    /** A null request list streamed over. */
    | NullPointer

  /** `AddSupportTicketRequest`: the detail descriptions and resolution messages; a list of
      `None` is a null list. */
  datatype AddSupportTicketRequest = AddSupportTicketRequest(
    userId: Option<Uuid>, status: SupportStatus, priority: SupportPriority,
    ticketDetails: Option<seq<string>>, resolutions: Option<seq<string>>)

  datatype UpdateSupportTicketRequest = UpdateSupportTicketRequest(
    userId: Option<Uuid>, status: SupportStatus, priority: SupportPriority,
    ticketDetails: Option<seq<string>>, resolutions: Option<seq<string>>)

  datatype UpdateTicketResolutionRequest = UpdateTicketResolutionRequest(
    ticketResolutionId: Option<Uuid>, resolutionMessage: string)

  /** The attachment part of an add request and what the image service answered for it. */
  datatype Attachment = NoFile | Uploaded(imageIds: seq<Uuid>) | UploadFailed

  datatype SupportTicketConfirmation = SupportTicketConfirmation(
    email: string, supportTicketId: Uuid, status: SupportStatus)

  datatype ResolutionConfirmation = ResolutionConfirmation(
    email: string, supportTicketId: Uuid, status: SupportStatus, resolutionMessage: string, resolvedAt: int)

  /** `validateUserAccess`: the request must name a user whose role is ROLE_USER or higher;
      a failing role lookup propagates. */
  function ValidateUserAccess(users: UserClient.Directory, userId: Option<Uuid>): (r: Result<Uuid, TicketError>)
    ensures userId.None? ==> r == Err(Unauthorized(UserIdMissing))
    ensures r.Ok? <==> userId.Some? && RoleUtil.HasRoleOrHigher(users, userId.value, RoleUtil.RoleUser) == Ok(true)
    ensures r.Ok? ==> r.value == userId.value
    ensures userId.Some? && userId.value in users.roles && r.Err? ==> r == Err(Unauthorized(OnlyUsers))
  {
    if userId.None? then Err(Unauthorized(UserIdMissing))
    else
      var answer := RoleUtil.HasRoleOrHigher(users, userId.value, RoleUtil.RoleUser);
      if answer.Err? then
        (if answer.error.ClientFailure? then Err(ClientFailure(answer.error.e.userId)) else Err(NullPointer))
      else if answer.value then Ok(userId.value)
      else Err(Unauthorized(OnlyUsers))
  }

  /** `getUserIdFromHeader`. */
  function GetUserIdFromHeader(header: UuidHeader): (r: Result<Uuid, TicketError>)
    ensures header.Absent? ==> r == Err(Unauthorized(UserIdNotInHeader))
    ensures header.Malformed? ==> r == Err(BadUuid(header.text))
    ensures r.Ok? <==> header.Parsed?
    ensures r.Ok? ==> r.value == header.id
  {
    match header
    case Absent => Err(Unauthorized(UserIdNotInHeader))
    case Malformed(text) => Err(BadUuid(text))
    case Parsed(id) => Ok(id)
  }

  /** `processAttachment`: the first uploaded image's id, or none. */
  function ProcessAttachment(a: Attachment): (r: Result<Option<Uuid>, TicketError>)
    ensures r.Err? <==> a.UploadFailed?
    ensures r.Ok? && r.value.Some? <==> a.Uploaded? && a.imageIds != []
    ensures r.Ok? && r.value.Some? ==> r.value.value == a.imageIds[0]
  {
    match a
    case NoFile => Ok(None)
    case UploadFailed => Err(AttachmentFailed)
    case Uploaded(ids) => if ids == [] then Ok(None) else Ok(Some(ids[0]))
  }

  /** New detail entities, stamped at `now` when persisted. */
  function NewDetails(descriptions: seq<string>, now: int): (r: seq<TicketDetails>)
    ensures |r| == |descriptions|
    ensures forall i :: 0 <= i < |r| ==> r[i] == TicketDetails(descriptions[i], now)
  {
    if descriptions == [] then []
    else [TicketDetails(descriptions[0], now)] + NewDetails(descriptions[1..], now)
  }

  /** New resolution entities with the ids `firstId`, `firstId + 1`, ..., closed at `now`. */
  function NewResolutions(messages: seq<string>, firstId: Uuid, now: int): (r: seq<TicketResolution>)
    ensures |r| == |messages|
    ensures forall i :: 0 <= i < |r| ==> r[i] == TicketResolution(firstId + i, messages[i], now)
  {
    if messages == [] then []
    else [TicketResolution(firstId, messages[0], now)] + NewResolutions(messages[1..], firstId + 1, now)
  }

  /** `createSupportTicket`: user, status and priority copied, one detail per requested
      detail and one resolution per requested resolution; the attachment id is not copied. */
  function CreateSupportTicket(request: AddSupportTicketRequest, ticketId: Uuid, now: int)
    : (r: Result<SupportTicket, TicketError>)
    requires request.userId.Some?
    ensures r.Err? <==> request.ticketDetails.None? || request.resolutions.None?
    ensures r.Err? ==> r.error == NullPointer
    ensures r.Ok? ==>
      && r.value.supportTicketId == ticketId && r.value.userId == request.userId.value
      && r.value.status == request.status && r.value.priority == request.priority
      && r.value.assignedWorkerId.None? && r.value.attachmentId.None?
      && r.value.ticketDetails == NewDetails(request.ticketDetails.value, now)
      && r.value.resolutions == NewResolutions(request.resolutions.value, ticketId + 1, now)
  {
    if request.ticketDetails.None? || request.resolutions.None? then Err(NullPointer)
    else Ok(SupportTicket(
      ticketId, request.userId.value, None, None, request.status, request.priority,
      NewDetails(request.ticketDetails.value, now),
      NewResolutions(request.resolutions.value, ticketId + 1, now)))
  }

  /** `updateSupportTicketHelper`: a new priority and a new set of details; nothing else. */
  function UserUpdate(t: SupportTicket, request: UpdateSupportTicketRequest, now: int)
    : (r: Result<SupportTicket, TicketError>)
    ensures r.Err? <==> request.ticketDetails.None?
    ensures r.Ok? ==>
      && r.value.priority == request.priority
      && r.value.ticketDetails == NewDetails(request.ticketDetails.value, now)
      && r.value == t.(priority := r.value.priority, ticketDetails := r.value.ticketDetails)
  {
    if request.ticketDetails.None? then Err(NullPointer)
    else Ok(t.(priority := request.priority, ticketDetails := NewDetails(request.ticketDetails.value, now)))
  }

  /** The resolutions a staff update appends: the requested ones when the list is non-null
      and non-empty. */
  function AppendedMessages(request: UpdateSupportTicketRequest): (m: seq<string>)
    ensures request.resolutions.None? ==> m == []
    ensures request.resolutions.Some? ==> m == request.resolutions.value
  {
    if request.resolutions.Some? && request.resolutions.value != [] then request.resolutions.value else []
  }

  /** `updateSupportTicketHelperForStaff`: new status and priority, details untouched, and
      the requested resolutions appended. */
  function StaffUpdate(t: SupportTicket, request: UpdateSupportTicketRequest, firstId: Uuid, now: int)
    : (r: SupportTicket)
    ensures r.status == request.status && r.priority == request.priority
    ensures r.ticketDetails == t.ticketDetails
    ensures r.resolutions == t.resolutions + NewResolutions(AppendedMessages(request), firstId, now)
    ensures r == t.(status := r.status, priority := r.priority, resolutions := r.resolutions)
  {
    t.(status := request.status, priority := request.priority,
       resolutions := t.resolutions + NewResolutions(AppendedMessages(request), firstId, now))
  }

  /** The first resolution with id `id`. */
  function IndexOfResolution(rs: seq<TicketResolution>, id: Option<Uuid>): (r: Option<nat>)
    ensures r.Some? ==> id.Some? && r.value < |rs| && rs[r.value].resolutionId == id.value
                        && forall j :: 0 <= j < r.value ==> rs[j].resolutionId != id.value
    ensures r.None? <==> id.None? || forall j :: 0 <= j < |rs| ==> rs[j].resolutionId != id.value
  {
    if id.None? then None
    else Repo.IndexOfKey(rs, (x: TicketResolution) => x.resolutionId, id.value)
  }

  /** `updateTicketResolutionHelper`: that one resolution gets the new message and closing
      time; everything else in the ticket stays. */
  function UpdateResolution(t: SupportTicket, request: UpdateTicketResolutionRequest, now: int)
    : (r: Result<SupportTicket, TicketError>)
    ensures r.Err? <==> IndexOfResolution(t.resolutions, request.ticketResolutionId).None?
    ensures r.Err? ==> r.error == InvalidTicketDetails(ResolutionNotFound)
    ensures r.Ok? ==>
      var i := IndexOfResolution(t.resolutions, request.ticketResolutionId).value;
      && r.value == t.(resolutions := r.value.resolutions)
      && |r.value.resolutions| == |t.resolutions|
      && r.value.resolutions[i] == t.resolutions[i].(resolutionMessage := request.resolutionMessage, closedAt := now)
      && forall j :: 0 <= j < |t.resolutions| && j != i ==> r.value.resolutions[j] == t.resolutions[j]
  {
    match IndexOfResolution(t.resolutions, request.ticketResolutionId)
    case None => Err(InvalidTicketDetails(ResolutionNotFound))
    case Some(i) =>
      var updated := t.resolutions[i].(resolutionMessage := request.resolutionMessage, closedAt := now);
      Ok(t.(resolutions := t.resolutions[i := updated]))
  }

  function MapTickets(ts: seq<SupportTicket>): (r: seq<SupportTicketDto>)
    ensures |r| == |ts|
    ensures forall i :: 0 <= i < |ts| ==> r[i] == FromSupportTicket(ts[i])
  {
    if ts == [] then [] else [FromSupportTicket(ts[0])] + MapTickets(ts[1..])
  }

  /** The answer of the staff check for a header, given the role memo before the call. */
  predicate StaffAllowed(m: RoleContext.Memo, header: UuidHeader, client: UserClient.Directory)
  {
    header.Parsed?
    && var s := RoleContext.GetUserRoleStep(m, header.id, client);
       s.answer.Ok? && RoleUtil.CompareRoles(s.answer.value, RoleUtil.RoleSupportStaff) == Ok(true)
  }

  class SupportTicketService {
    var tickets: seq<SupportTicket>
    var nextId: Uuid
    const users: UserClient.Directory
    const roleContext: RoleContext.UserRoleContext
    const cache: TicketCache.SupportTicketCacheService
    var confirmations: seq<SupportTicketConfirmation>
    var resolutionNotices: seq<ResolutionConfirmation>
    /** How many times the whole ticket table was loaded. */
    ghost var loads: nat

    ghost predicate Valid()
      reads this
    {
      forall t :: t in tickets ==> t.supportTicketId < nextId
    }

    constructor (users: UserClient.Directory, roleContext: RoleContext.UserRoleContext,
                 cache: TicketCache.SupportTicketCacheService)
      ensures this.users == users && this.roleContext == roleContext && this.cache == cache
      ensures tickets == [] && confirmations == [] && resolutionNotices == [] && loads == 0
      ensures Valid()
    {
      this.users := users;
      this.roleContext := roleContext;
      this.cache := cache;
      tickets := [];
      nextId := 0;
      confirmations := [];
      resolutionNotices := [];
      loads := 0;
    }

    function FindById(ticketId: Uuid): (r: Option<SupportTicket>)
      reads this
      ensures r.Some? ==> r.value in tickets && r.value.supportTicketId == ticketId
      ensures r.None? <==> forall i :: 0 <= i < |tickets| ==> tickets[i].supportTicketId != ticketId
    {
      Repo.FindByKey(tickets, TicketKey, ticketId)
    }

    /** `supportTicketRepository.save`. */
    method Save(t: SupportTicket)
      requires Valid() && t.supportTicketId < nextId
      modifies this`tickets
      ensures Valid()
      ensures tickets == Repo.Upsert(old(tickets), t, TicketKey)
    {
      tickets := Repo.Upsert(tickets, t, TicketKey);
    }

    /** Draws `count` ids from the generator (which is not part of any transaction). */
    method ReserveIds(count: nat)
      requires Valid()
      modifies this`nextId
      ensures Valid() && nextId == old(nextId) + count
    {
      nextId := nextId + count;
    }

    /** Puts the table back as it was when the transaction began. */
    method Restore(saved: seq<SupportTicket>)
      requires forall t :: t in saved ==> t.supportTicketId < nextId
      modifies this`tickets
      ensures Valid() && tickets == saved
    {
      tickets := saved;
    }

    /** `validateAndGetStaffUserIdTest`: the header's user must rank SUPPORT_STAFF or higher
        by the memoised role; a missing or malformed header fails first. */
    method ValidateStaff(header: UuidHeader) returns (r: Result<Uuid, TicketError>)
      modifies roleContext
      ensures header.Absent? ==> r == Err(Unauthorized(UserIdNotInHeader))
      ensures header.Malformed? ==> r == Err(BadUuid(header.text))
      ensures header.Parsed? ==>
        && roleContext.State() == RoleContext.GetUserRoleStep(old(roleContext.State()), header.id, roleContext.client).memo
        && (r.Err? ==> r == Err(Unauthorized(OnlyStaff)))
      ensures r.Ok? <==> StaffAllowed(old(roleContext.State()), header, roleContext.client)
      ensures r.Ok? ==> r.value == header.id
    {
      var userId :- GetUserIdFromHeader(header);
      var allowed := RoleUtil.HasRoleOrHigherTest(roleContext, userId, RoleUtil.RoleSupportStaff);
      if !allowed {
        return Err(Unauthorized(OnlyStaff));
      }
      return Ok(userId);
    }

    /** `getAllSupportTickets`. */
    method GetAllSupportTickets(header: UuidHeader) returns (r: Result<seq<SupportTicketDto>, TicketError>)
      modifies roleContext, this`loads
      ensures r.Ok? <==> StaffAllowed(old(roleContext.State()), header, roleContext.client)
      ensures r.Ok? ==> r.value == MapTickets(tickets)
      ensures header.Absent? ==> r == Err(Unauthorized(UserIdNotInHeader))
      ensures header.Malformed? ==> r == Err(BadUuid(header.text))
      ensures header.Parsed? ==>
        && roleContext.State() == RoleContext.GetUserRoleStep(old(roleContext.State()), header.id, roleContext.client).memo
        && (r.Err? ==> r == Err(Unauthorized(OnlyStaff)))
      ensures loads == old(loads) + (if r.Ok? then 1 else 0)
    {
      var staff := ValidateStaff(header);
      if staff.Err? {
        return Err(staff.error);
      }
      loads := loads + 1;
      return Ok(MapTickets(tickets));
    }

    /** `getAllSupportTicketsWithRedis`: a cache hit answers without loading the table; a miss
        loads it, caches the DTO list and answers with it. */
    method GetAllSupportTicketsWithRedis(header: UuidHeader, now: int, reachable: bool)
      returns (r: Result<seq<SupportTicketDto>, TicketError>)
      modifies roleContext, cache, this`loads
      ensures r.Ok? <==> StaffAllowed(old(roleContext.State()), header, roleContext.client)
      ensures r.Err? ==> cache.store == old(cache.store) && loads == old(loads)
      ensures r.Ok? ==>
        match TicketCache.AllFrom(old(cache.store), now, reachable)
        case Some(cached) =>
          r.value == cached && cache.store == old(cache.store) && loads == old(loads)
        case None =>
          && r.value == MapTickets(tickets) && loads == old(loads) + 1
          && cache.store == if reachable then TicketCache.PutAll(old(cache.store), r.value, now) else old(cache.store)
    {
      var staff := ValidateStaff(header);
      if staff.Err? {
        return Err(staff.error);
      }
      var cached := cache.GetCachedAllTickets(now, reachable);
      if cached.Some? {
        return Ok(cached.value);
      }
      loads := loads + 1;
      var dtos := MapTickets(tickets);
      cache.CacheAllTickets(dtos, now, reachable);
      return Ok(dtos);
    }

    /** `addSupportTicket`: checked, created, saved, announced and cached. */
    method AddSupportTicket(request: AddSupportTicketRequest, attachment: Attachment, now: int, reachable: bool)
      returns (r: Result<SupportTicketDto, TicketError>)
      requires Valid()
      modifies this`tickets, this`nextId, this`confirmations, cache
      ensures Valid()
      ensures request.userId.None? ==> r == Err(Unauthorized(UserIdMissing))
      ensures ValidateUserAccess(users, request.userId).Err? ==>
                r == Err(ValidateUserAccess(users, request.userId).error)
      ensures r.Err? ==> tickets == old(tickets) && confirmations == old(confirmations)
                         && cache.store == old(cache.store)
      ensures r.Ok? <==>
        && ValidateUserAccess(users, request.userId).Ok?
        && ProcessAttachment(attachment).Ok?
        && request.ticketDetails.Some? && request.resolutions.Some?
        && request.userId.value in users.emails
      ensures r.Ok? ==>
        && request.userId.Some?
        && var t := CreateSupportTicket(request, old(nextId), now).value;
           && tickets == old(tickets) + [t]
           && r.value == FromSupportTicket(t)
           && confirmations == old(confirmations) + [SupportTicketConfirmation(users.emails[t.userId], t.supportTicketId, Pending)]
           && cache.store == if reachable then TicketCache.PutTicket(old(cache.store), r.value, now) else old(cache.store)
    {
      var userId :- ValidateUserAccess(users, request.userId);
      var attachmentId :- ProcessAttachment(attachment);
      var ticketId := nextId;
      var created := CreateSupportTicket(request, ticketId, now);
      if created.Err? {
        return Err(created.error);
      }
      var ticket := created.value;
      ReserveIds(1 + |ticket.resolutions|);
      var before := tickets;
      assert Repo.FindByKey(tickets, TicketKey, ticketId).None?;
      Save(ticket);
      var dto := FromSupportTicket(ticket);
      var email := UserClient.GetEmailByUserId(users, dto.userId);
      if email.Err? {
        Restore(before);
        return Err(ClientFailure(dto.userId));
      }
      confirmations := confirmations + [SupportTicketConfirmation(email.value, dto.supportTicketId, Pending)];
      cache.CacheTicketDto(dto, now, reachable);
      return Ok(dto);
    }

    /** `updateSupportTicketForUser`: only the ticket's owner, with ROLE_USER or higher, may
        change its priority and details. */
    method UpdateSupportTicketForUser(ticketId: Uuid, request: UpdateSupportTicketRequest, now: int, reachable: bool)
      returns (r: Result<SupportTicketDto, TicketError>)
      requires Valid()
      modifies this`tickets, cache
      ensures Valid()
      ensures r.Err? ==> tickets == old(tickets) && cache.store == old(cache.store)
      ensures ValidateUserAccess(users, request.userId).Err? ==>
                r == Err(ValidateUserAccess(users, request.userId).error)
      ensures ValidateUserAccess(users, request.userId).Ok? && old(FindById(ticketId)).None? ==>
                r == Err(InvalidTicketDetails(TicketNotFound))
      ensures ValidateUserAccess(users, request.userId).Ok? && old(FindById(ticketId)).Some?
              && old(FindById(ticketId)).value.userId != request.userId.value ==>
                r == Err(Unauthorized(NotOwner))
      ensures ValidateUserAccess(users, request.userId).Ok? && old(FindById(ticketId)).Some?
              && old(FindById(ticketId)).value.userId == request.userId.value ==>
                (r.Ok? <==> request.ticketDetails.Some?) && (r.Err? ==> r == Err(NullPointer))
      ensures r.Ok? ==>
        && ValidateUserAccess(users, request.userId).Ok? && old(FindById(ticketId)).Some?
        && var t := old(FindById(ticketId)).value;
           && t.userId == request.userId.value
           && UserUpdate(t, request, now).Ok?
           && var u := UserUpdate(t, request, now).value;
              && tickets == Repo.Upsert(old(tickets), u, TicketKey)
              && r.value == FromSupportTicket(u)
              && cache.store == if reachable then TicketCache.PutTicket(old(cache.store), r.value, now) else old(cache.store)
    {
      var userId :- ValidateUserAccess(users, request.userId);
      var found := FindById(ticketId);
      if found.None? {
        return Err(InvalidTicketDetails(TicketNotFound));
      }
      if found.value.userId != userId {
        return Err(Unauthorized(NotOwner));
      }
      var updated :- UserUpdate(found.value, request, now);
      Save(updated);
      var dto := FromSupportTicket(updated);
      cache.CacheTicketDto(dto, now, reachable);
      return Ok(dto);
    }

    /** `handleResolutionIfResolved`: a RESOLVED ticket's owner is sent the resolution notice,
        addressed to the e-mail the user service gives for the owner. */
    method HandleResolutionIfResolved(dto: SupportTicketDto, now: int) returns (r: Result<SupportTicketDto, TicketError>)
      modifies this`resolutionNotices
      ensures r.Err? <==> dto.status == Resolved && dto.userId !in users.emails
      ensures r.Err? ==> r == Err(ClientFailure(dto.userId)) && resolutionNotices == old(resolutionNotices)
      ensures r.Ok? ==>
        && r.value == dto
        && resolutionNotices == old(resolutionNotices) +
             if dto.status == Resolved then
               [ResolutionConfirmation(users.emails[dto.userId], dto.supportTicketId, Resolved, ExtractResolutionMessage(dto), now)]
             else []
    {
      if dto.status == Resolved {
        var email := UserClient.GetEmailByUserId(users, dto.userId);
        if email.Err? {
          return Err(ClientFailure(dto.userId));
        }
        resolutionNotices := resolutionNotices +
          [ResolutionConfirmation(email.value, dto.supportTicketId, Resolved, ExtractResolutionMessage(dto), now)];
      }
      return Ok(dto);
    }

    /** `processTicketUpdate`: the ticket is found, updated by the staff request, saved,
        mapped, cached and, when RESOLVED, announced. When the notice cannot be addressed (the
        owner's e-mail lookup fails) the update is rolled back, but the DTO cached just before
        stays in Redis. */
    method ProcessTicketUpdate(ticketId: Uuid, request: UpdateSupportTicketRequest, now: int, reachable: bool)
      returns (r: Result<SupportTicketDto, TicketError>)
      requires Valid()
      modifies this`tickets, this`nextId, this`resolutionNotices, cache
      ensures Valid()
      ensures r.Err? ==> tickets == old(tickets) && resolutionNotices == old(resolutionNotices)
      ensures old(FindById(ticketId)).None? ==>
                r == Err(InvalidTicketDetails(TicketNotFound)) && cache.store == old(cache.store)
      ensures old(FindById(ticketId)).Some? ==>
        var u := StaffUpdate(old(FindById(ticketId)).value, request, old(nextId), now);
        && cache.store == (if reachable then TicketCache.PutTicket(old(cache.store), FromSupportTicket(u), now) else old(cache.store))
        && (r.Err? <==> u.status == Resolved && u.userId !in users.emails)
        && (r.Ok? ==>
              && r.value == FromSupportTicket(u)
              && tickets == Repo.Upsert(old(tickets), u, TicketKey)
              && resolutionNotices == old(resolutionNotices) +
                   if u.status == Resolved then
                     [ResolutionConfirmation(users.emails[u.userId], ticketId, Resolved, ExtractResolutionMessage(r.value), now)]
                   else [])
    {
      var found := FindById(ticketId);
      if found.None? {
        return Err(InvalidTicketDetails(TicketNotFound));
      }
      var before := tickets;
      var updated := StaffUpdate(found.value, request, nextId, now);
      ReserveIds(|AppendedMessages(request)|);
      Save(updated);
      var dto := FromSupportTicket(updated);
      assert dto.status == updated.status && dto.userId == updated.userId && dto.supportTicketId == ticketId;
      cache.CacheTicketDto(dto, now, reachable);
      var handled := HandleResolutionIfResolved(dto, now);
      if handled.Err? {
        Restore(before);
        return Err(handled.error);
      }
      return Ok(dto);
    }

    /** `updateSupportTicketForStaff`: staff set status and priority and append resolutions;
        a RESOLVED result sends the resolution notice. */
    method UpdateSupportTicketForStaff(ticketId: Uuid, request: UpdateSupportTicketRequest, header: UuidHeader,
                                       now: int, reachable: bool)
      returns (r: Result<SupportTicketDto, TicketError>)
      requires Valid()
      modifies this`tickets, this`nextId, this`resolutionNotices, roleContext, cache
      ensures Valid()
      ensures r.Err? ==> tickets == old(tickets) && resolutionNotices == old(resolutionNotices)
      ensures !StaffAllowed(old(roleContext.State()), header, roleContext.client) ==>
                r.Err? && cache.store == old(cache.store)
      ensures StaffAllowed(old(roleContext.State()), header, roleContext.client) && old(FindById(ticketId)).None? ==>
                r == Err(InvalidTicketDetails(TicketNotFound)) && cache.store == old(cache.store)
      ensures StaffAllowed(old(roleContext.State()), header, roleContext.client) && old(FindById(ticketId)).Some? ==>
        var u := StaffUpdate(old(FindById(ticketId)).value, request, old(nextId), now);
        && cache.store == (if reachable then TicketCache.PutTicket(old(cache.store), FromSupportTicket(u), now) else old(cache.store))
        && (r.Err? <==> u.status == Resolved && u.userId !in users.emails)
        && (r.Ok? ==>
              && r.value == FromSupportTicket(u)
              && tickets == Repo.Upsert(old(tickets), u, TicketKey)
              && resolutionNotices == old(resolutionNotices) +
                   if u.status == Resolved then
                     [ResolutionConfirmation(users.emails[u.userId], ticketId, Resolved, ExtractResolutionMessage(r.value), now)]
                   else [])
    {
      var staff := ValidateStaff(header);
      if staff.Err? {
        return Err(staff.error);
      }
      r := ProcessTicketUpdate(ticketId, request, now, reachable);
    }

    /** `updateTicketResolution`: staff change the message of one resolution, found by id. */
    method UpdateTicketResolution(ticketId: Uuid, request: UpdateTicketResolutionRequest, header: UuidHeader,
                                  now: int, reachable: bool)
      returns (r: Result<TicketResolutionDto, TicketError>)
      requires Valid()
      modifies this`tickets, roleContext, cache
      ensures Valid()
      ensures r.Err? ==> tickets == old(tickets) && cache.store == old(cache.store)
      ensures r.Ok? <==> StaffAllowed(old(roleContext.State()), header, roleContext.client)
                         && old(FindById(ticketId)).Some?
                         && UpdateResolution(old(FindById(ticketId)).value, request, now).Ok?
      ensures StaffAllowed(old(roleContext.State()), header, roleContext.client) && old(FindById(ticketId)).None? ==>
                r == Err(InvalidTicketDetails(TicketNotFound))
      ensures StaffAllowed(old(roleContext.State()), header, roleContext.client) && old(FindById(ticketId)).Some?
              && UpdateResolution(old(FindById(ticketId)).value, request, now).Err? ==>
                r == Err(InvalidTicketDetails(ResolutionNotFound))
      ensures r.Ok? ==>
        var u := UpdateResolution(old(FindById(ticketId)).value, request, now).value;
        && r.value == TicketResolutionDto(request.resolutionMessage, now)
        && tickets == Repo.Upsert(old(tickets), u, TicketKey)
        && cache.store == if reachable then TicketCache.PutTicket(old(cache.store), FromSupportTicket(u), now) else old(cache.store)
    {
      var staff := ValidateStaff(header);
      if staff.Err? {
        return Err(staff.error);
      }
      var found := FindById(ticketId);
      if found.None? {
        return Err(InvalidTicketDetails(TicketNotFound));
      }
      var updated :- UpdateResolution(found.value, request, now);
      Save(updated);
      var i := IndexOfResolution(updated.resolutions, request.ticketResolutionId);
      var saved := FindById(ticketId);
      cache.CacheTicketDto(FromSupportTicket(saved.value), now, reachable);
      return Ok(FromTicketResolution(updated.resolutions[i.value]));
    }
  }

  /** `findUpdatedResolution` after `updateTicketResolutionHelper`: the id lookup finds the
      same resolution again, now carrying the new message and closing time. */
  lemma UpdatedResolutionIsFound(t: SupportTicket, request: UpdateTicketResolutionRequest, now: int)
    requires UpdateResolution(t, request, now).Ok?
    ensures var u := UpdateResolution(t, request, now).value;
            var i := IndexOfResolution(u.resolutions, request.ticketResolutionId);
            && i == IndexOfResolution(t.resolutions, request.ticketResolutionId)
            && FromTicketResolution(u.resolutions[i.value]) == TicketResolutionDto(request.resolutionMessage, now)
  {
    var u := UpdateResolution(t, request, now).value;
    var i := IndexOfResolution(t.resolutions, request.ticketResolutionId).value;
    Repo.IndexOfKeyFirst(u.resolutions, (x: TicketResolution) => x.resolutionId, request.ticketResolutionId.value, i);
  }

  /** The resolution notice of a staff update is empty when the ticket has no resolution,
      old or appended, and otherwise carries the message of one of them. Which one depends on
      the iteration order of a hash set, which the service does not fix, so nothing more is
      claimed. */
  lemma StaffNoticeMessage(t: SupportTicket, request: UpdateSupportTicketRequest, firstId: Uuid, now: int)
    ensures var m := ExtractResolutionMessage(FromSupportTicket(StaffUpdate(t, request, firstId, now)));
            && (t.resolutions == [] && AppendedMessages(request) == [] ==> m == "")
            && (t.resolutions != [] || AppendedMessages(request) != [] ==>
                  m in Messages(t.resolutions) + AppendedMessages(request))
  {
    var u := StaffUpdate(t, request, firstId, now);
    NoticeMessageIsSomeResolution(u);
    var added := NewResolutions(AppendedMessages(request), firstId, now);
    if u.resolutions != [] {
      var i :| 0 <= i < |u.resolutions| && ExtractResolutionMessage(FromSupportTicket(u)) == u.resolutions[i].resolutionMessage;
      if i < |t.resolutions| {
        assert u.resolutions[i] == t.resolutions[i];
        assert Messages(t.resolutions)[i] == t.resolutions[i].resolutionMessage;
      } else {
        assert u.resolutions[i] == added[i - |t.resolutions|];
      }
    }
  }

  /** A staff update never loses a resolution: the old ones keep their place, and each
      appended one gets a new id from `firstId` on. */
  lemma StaffUpdateKeepsResolutions(t: SupportTicket, request: UpdateSupportTicketRequest, firstId: Uuid, now: int)
    ensures var u := StaffUpdate(t, request, firstId, now);
            && u.resolutions[..|t.resolutions|] == t.resolutions
            && |u.resolutions| == |t.resolutions| + |AppendedMessages(request)|
            && forall j :: |t.resolutions| <= j < |u.resolutions| ==> u.resolutions[j].resolutionId >= firstId
  {
    var u := StaffUpdate(t, request, firstId, now);
    assert u.resolutions[..|t.resolutions|] == t.resolutions;
  }
}
