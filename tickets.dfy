/** The support service's ticket entities and the `SupportTicketMapper` that turns a ticket
    into its DTO. An entity collection is a sequence of distinct objects (entities compare by
    identity, so a `HashSet` of them never merges two); a DTO collection compares by value, so
    collecting it into a set merges equal DTOs. Set iteration order is taken to be the order of
    the sequence. */
module Tickets {
  import opened Wrappers
  import opened Ids
  import Repo

  /** `SupportStatus`. `Other` stands for any constant besides the four the service names. */
  datatype SupportStatus = Pending | InProgress | Resolved | Closed | Other(name: string)

  datatype SupportPriority = SupportPriority(name: string)

  /** `createdAt` is stamped by `prePersist`. */
  datatype TicketDetails = TicketDetails(description: string, createdAt: int)

  /** `closedAt` is stamped by `prePersist` and by every update of the message. */
  datatype TicketResolution = TicketResolution(resolutionId: Uuid, resolutionMessage: string, closedAt: int)

  datatype SupportTicket = SupportTicket(
    supportTicketId: Uuid,
    userId: Uuid,
    assignedWorkerId: Option<Uuid>,
    attachmentId: Option<Uuid>,
    status: SupportStatus,
    priority: SupportPriority,
    ticketDetails: seq<TicketDetails>,
    resolutions: seq<TicketResolution>)

  function TicketKey(t: SupportTicket): Uuid { t.supportTicketId }

  datatype TicketDetailsDto = TicketDetailsDto(description: string, createdAt: int)
  datatype TicketResolutionDto = TicketResolutionDto(resolutionMessage: string, closedAt: int)

  /** `SupportTicketDto`: its two collections are value sets (no repeated element). */
  datatype SupportTicketDto = SupportTicketDto(
    supportTicketId: Uuid,
    userId: Uuid,
    assignedWorkerId: Option<Uuid>,
    status: SupportStatus,
    priority: SupportPriority,
    ticketDetails: seq<TicketDetailsDto>,
    resolutions: seq<TicketResolutionDto>)

  /** `TicketDetailsMapper.fromTicketDetails` and `TicketResolutionMapper.fromTicketResolution`
      are field copies. */
  function FromTicketDetails(d: TicketDetails): TicketDetailsDto
  {
    TicketDetailsDto(d.description, d.createdAt)
  }

  function FromTicketResolution(r: TicketResolution): TicketResolutionDto
  {
    TicketResolutionDto(r.resolutionMessage, r.closedAt)
  }

  function MapDetails(ds: seq<TicketDetails>): (r: seq<TicketDetailsDto>)
    ensures |r| == |ds|
    ensures forall i :: 0 <= i < |ds| ==> r[i] == FromTicketDetails(ds[i])
  {
    if ds == [] then [] else [FromTicketDetails(ds[0])] + MapDetails(ds[1..])
  }

  function MapResolutions(rs: seq<TicketResolution>): (r: seq<TicketResolutionDto>)
    ensures |r| == |rs|
    ensures forall i :: 0 <= i < |rs| ==> r[i] == FromTicketResolution(rs[i])
  {
    if rs == [] then [] else [FromTicketResolution(rs[0])] + MapResolutions(rs[1..])
  }

  /** `fromSupportTicket`: the scalar fields are copied, and each collection is mapped and
      collected into a value set, so it can only shrink. */
  function FromSupportTicket(t: SupportTicket): (dto: SupportTicketDto)
    ensures dto.supportTicketId == t.supportTicketId && dto.userId == t.userId
    ensures dto.assignedWorkerId == t.assignedWorkerId
    ensures dto.status == t.status && dto.priority == t.priority
    ensures |dto.ticketDetails| <= |t.ticketDetails| && |dto.resolutions| <= |t.resolutions|
  {
    SupportTicketDto(
      t.supportTicketId, t.userId, t.assignedWorkerId, t.status, t.priority,
      Repo.Distinct(MapDetails(t.ticketDetails)),
      Repo.Distinct(MapResolutions(t.resolutions)))
  }

  /** In the DTO every element comes from an entity of the ticket, every entity is
      represented, and no element repeats. */
  lemma MappedCollections(t: SupportTicket)
    ensures var dto := FromSupportTicket(t);
      && (forall d :: d in dto.resolutions <==>
            exists i :: 0 <= i < |t.resolutions| && d == FromTicketResolution(t.resolutions[i]))
      && (forall d :: d in dto.ticketDetails <==>
            exists i :: 0 <= i < |t.ticketDetails| && d == FromTicketDetails(t.ticketDetails[i]))
      && (forall i, j :: 0 <= i < j < |dto.resolutions| ==> dto.resolutions[i] != dto.resolutions[j])
      && (forall i, j :: 0 <= i < j < |dto.ticketDetails| ==> dto.ticketDetails[i] != dto.ticketDetails[j])
  {
  }

  /** Two resolutions with the same message and closing time (different entities, different
      ids) become one DTO: the DTO has fewer resolutions than the ticket. */
  lemma EqualResolutionsCollapse(t: SupportTicket, i: nat, j: nat)
    requires i < j < |t.resolutions|
    requires t.resolutions[i].resolutionMessage == t.resolutions[j].resolutionMessage
    requires t.resolutions[i].closedAt == t.resolutions[j].closedAt
    ensures |FromSupportTicket(t).resolutions| < |t.resolutions|
  {
    var mapped := MapResolutions(t.resolutions);
    assert mapped[i] == mapped[j];
    Repo.DistinctShrinks(mapped, i, j);
  }

  /** `extractResolutionMessage`: the message of the DTO's first resolution, or "". */
  function ExtractResolutionMessage(dto: SupportTicketDto): (m: string)
    ensures dto.resolutions == [] ==> m == ""
    ensures dto.resolutions != [] ==> m == dto.resolutions[0].resolutionMessage
  {
    if dto.resolutions == [] then "" else dto.resolutions[0].resolutionMessage
  }

  /** The messages of a sequence of resolutions, in order. */
  function Messages(rs: seq<TicketResolution>): (m: seq<string>)
    ensures |m| == |rs|
    ensures forall i :: 0 <= i < |rs| ==> m[i] == rs[i].resolutionMessage
  {
    if rs == [] then [] else [rs[0].resolutionMessage] + Messages(rs[1..])
  }

  /** The message a ticket's resolution notice carries is empty when the ticket has no
      resolution, and otherwise is the message of one of its resolutions; `findFirst` over a
      hash set fixes no particular one. */
  lemma NoticeMessageIsSomeResolution(t: SupportTicket)
    ensures var m := ExtractResolutionMessage(FromSupportTicket(t));
            && (t.resolutions == [] ==> m == "")
            && (t.resolutions != [] ==>
                  exists i :: 0 <= i < |t.resolutions| && m == t.resolutions[i].resolutionMessage)
  {
    var dto := FromSupportTicket(t);
    MappedCollections(t);
    if t.resolutions != [] {
      assert FromTicketResolution(t.resolutions[0]) in dto.resolutions;
      assert dto.resolutions[0] in dto.resolutions;
    }
  }
}
