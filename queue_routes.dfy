/** `POST /api/queue/join`, `GET /api/queue/status/:userId`,
    `POST /api/queue/complete/:entryId` and `GET /api/queue/length/:locationId`. */
module QueueRoutes {
  import opened Wrappers
  import opened JsValues
  import opened Http
  import Locations
  import Reports
  import Queue
  import Seqs

  /** The estimate used when a location has no usable average. */
  const DefaultEstimate := 15

  /** The join body; `None` marks an absent or null field. */
  datatype JoinBody = JoinBody(locationId: Option<int>, userId: Option<string>)

  predicate FieldsMissing(body: JoinBody) {
    body.locationId.None? || body.locationId == Some(0) || body.userId.None? || body.userId == Some("")
  }

  /** `calculateAverage(locationId, 2) || 15`: no reports in the window, or an
      average of 0, both give the default. */
  function EstimatedWait(log: seq<Reports.Report>, locationId: int, now: int): (r: int)
    ensures r == DefaultEstimate <==>
      var a := Reports.CalculateAverage(log, locationId, Reports.DefaultHoursBack, now);
      a.None? || a == Some(0) || a == Some(DefaultEstimate)
    ensures r != DefaultEstimate ==> Reports.CalculateAverage(log, locationId, Reports.DefaultHoursBack, now) == Some(r)
  {
    match Reports.CalculateAverage(log, locationId, Reports.DefaultHoursBack, now)
    case None => DefaultEstimate
    case Some(average) => if average != 0 then average else DefaultEstimate
  }

  /** A location whose recent reports are all 0 minutes gets the 15-minute
      default, the same as one with no reports at all. */
  lemma ZeroAverageFallsBack(locationId: int, now: int)
    ensures EstimatedWait([Reports.Report(1, locationId, 0, now)], locationId, now) == DefaultEstimate
    ensures EstimatedWait([], locationId, now) == DefaultEstimate
  {
    var log := [Reports.Report(1, locationId, 0, now)];
    assert log[..0] == [];
    assert Reports.CountReports(log, locationId, Reports.DefaultHoursBack, now) == 1;
    assert Reports.SumMinutes(log, locationId, Reports.DefaultHoursBack, now) == 0;
  }

  const MessagePrefix := "You are #"

  /** The text after the position: ` in queue. Estimated wait: ${estimatedWaitTime} minutes` */
  function MessageRest(estimate: int): (r: string)
    ensures r != [] && r[0] == ' '
  {
    " in queue. Estimated wait: " + IntToString(estimate) + " minutes"
  }

  /** `You are #${queuePosition} in queue. Estimated wait: ${estimatedWaitTime} minutes` */
  function JoinMessage(position: int, estimate: int): string {
    MessagePrefix + (IntToString(position) + MessageRest(estimate))
  }

  /** The message states the position: reading the number after '#' gives it back. */
  lemma JoinMessageStatesPosition(position: int, estimate: int)
    ensures |MessagePrefix| <= |JoinMessage(position, estimate)|
    ensures ParseInt(JoinMessage(position, estimate)[|MessagePrefix|..]) == Some(position)
  {
    var tail := IntToString(position) + MessageRest(estimate);
    assert JoinMessage(position, estimate)[|MessagePrefix|..] == tail;
    ParseIntOfRendered(position, MessageRest(estimate));
  }

  /** The 201 body: `{ success: true, queueEntry, message }`. */
  datatype JoinReply = JoinReply(queueEntry: Queue.JoinReceipt, message: string)

  /** The join handler. Falsy fields are a 400 and nothing is inserted; an
      unknown location reaches the foreign key and is a 500; otherwise one
      waiting entry is appended at position "waiting count + 1". */
  method Join(body: JoinBody, queue: Queue.QueueRepository, locations: seq<Locations.Location>,
    log: seq<Reports.Report>, now: int)
    returns (r: Reply<JoinReply, NoDetails>)
    requires queue.Valid()
    modifies queue
    ensures queue.Valid()
    ensures FieldsMissing(body) ==>
      r == Failure(400, MissingFields, "Location ID and User ID are required", None)
      && queue.entries == old(queue.entries)
    ensures !FieldsMissing(body) && Locations.FindById(locations, body.locationId.value).None? ==>
      r == Failure(500, InternalError, "Failed to join queue", None)
      && queue.entries == old(queue.entries)
    ensures !FieldsMissing(body) && Locations.FindById(locations, body.locationId.value).Some? ==>
      var locationId := body.locationId.value;
      var estimate := EstimatedWait(log, locationId, now);
      var position := Queue.GetQueueLength(old(queue.entries), locationId) + 1;
      && queue.entries == old(queue.entries) + [Queue.NewEntry(old(queue.entries), locationId, body.userId.value, estimate, now)]
      && r == Success(201, JoinReply(Queue.JoinReceipt(|old(queue.entries)| + 1, position, estimate, now),
           JoinMessage(position, estimate)))
  {
    if FieldsMissing(body) {
      return Failure(400, MissingFields, "Location ID and User ID are required", None);
    }
    var locationId := body.locationId.value;
    var estimate := EstimatedWait(log, locationId, now);
    var joined := queue.JoinQueue(locationId, body.userId.value, estimate, now, locations);
    r := match joined
      case Ok(receipt) => Success(201, JoinReply(receipt, JoinMessage(receipt.queuePosition, receipt.estimatedWaitTime)))
      case Err(_) => Failure(500, InternalError, "Failed to join queue", None);
  }

  /** One element of the status reply: the joined row plus the timing fields. */
  datatype QueueStatus = QueueStatus(row: Queue.UserQueueRow, elapsedMinutes: int, remainingMinutes: int, shouldNotify: bool)

  /** `Math.floor((now - joinedTime) / 1000 / 60)`, with times in seconds. */
  function ElapsedMinutes(joinedAt: int, now: int): (r: int)
    ensures 60 * r <= now - joinedAt < 60 * r + 60
  {
    (now - joinedAt) / 60
  }

  /** The timing fields of one queue entry. */
  function StatusOf(row: Queue.UserQueueRow, now: int): (r: QueueStatus)
    ensures r.row == row
    ensures r.elapsedMinutes == ElapsedMinutes(row.entry.joinedAt, now)
    ensures r.remainingMinutes >= 0
    ensures r.remainingMinutes == 0 <==> row.entry.estimatedWaitTime <= r.elapsedMinutes
    ensures r.remainingMinutes > 0 ==> r.remainingMinutes == row.entry.estimatedWaitTime - r.elapsedMinutes
    ensures r.shouldNotify <==> r.remainingMinutes <= Queue.DefaultMinutesBefore && row.entry.notifiedAt.None?
  {
    var elapsed := ElapsedMinutes(row.entry.joinedAt, now);
    var remaining := if row.entry.estimatedWaitTime - elapsed > 0 then row.entry.estimatedWaitTime - elapsed else 0;
    QueueStatus(row, elapsed, remaining, remaining <= 5 && row.entry.notifiedAt.None?)
  }

  /** The status handler: the user's queues with their timing fields, in the
      order `getUserQueues` returns them. */
  function GetStatus(entries: seq<Queue.QueueEntry>, locations: seq<Locations.Location>, userId: string, now: int)
    : (r: Reply<seq<QueueStatus>, NoDetails>)
    ensures r.Success? && r.status == 200
    ensures |r.body| == |Queue.GetUserQueues(entries, locations, userId)|
    ensures forall k :: 0 <= k < |r.body| ==> r.body[k].row == Queue.GetUserQueues(entries, locations, userId)[k]
    ensures forall k :: 0 <= k < |r.body| ==> r.body[k] == StatusOf(r.body[k].row, now)
  {
    var rows := Queue.GetUserQueues(entries, locations, userId);
    Success(200, seq(|rows|, k requires 0 <= k < |rows| => StatusOf(rows[k], now)))
  }

  /** Remaining time never exceeds the estimate once the entry has joined. */
  lemma RemainingWithinEstimate(row: Queue.UserQueueRow, now: int)
    requires row.entry.joinedAt <= now && row.entry.estimatedWaitTime >= 0
    ensures 0 <= StatusOf(row, now).remainingMinutes <= row.entry.estimatedWaitTime
  {
  }

  /** The status page's `shouldNotify` agrees with the notifier's query at its
      default of 5 minutes when the estimate is at least 5 minutes: for an entry
      on the user's list, it holds exactly when the notifier would pick the
      entry up. A shorter estimate is never picked up by the notifier. */
  lemma ShouldNotifyMatchesNotifier(row: Queue.UserQueueRow, locations: seq<Locations.Location>, now: int)
    requires row.entry.status == Queue.Waiting && Locations.FindById(locations, row.entry.locationId).Some?
    ensures row.entry.estimatedWaitTime >= Queue.DefaultMinutesBefore ==>
      (StatusOf(row, now).shouldNotify <==> Queue.NeedsNotification(row.entry, locations, Queue.DefaultMinutesBefore, now))
    ensures row.entry.estimatedWaitTime < Queue.DefaultMinutesBefore ==>
      !Queue.NeedsNotification(row.entry, locations, Queue.DefaultMinutesBefore, now)
  {
    var e := row.entry;
    var elapsed := ElapsedMinutes(e.joinedAt, now);
    var k := e.estimatedWaitTime - Queue.DefaultMinutesBefore;
    assert elapsed >= k <==> e.joinedAt + k * 60 <= now by {
      if elapsed >= k {
        assert 60 * k <= 60 * elapsed;
      } else {
        assert 60 * elapsed + 60 <= 60 * k;
      }
    }
  }

  /** With an estimate under 5 minutes, the status page asks for a
      notification as soon as the entry has joined, but the notifier's query
      never selects the entry. */
  lemma ShortEstimateNeverNotified(row: Queue.UserQueueRow, locations: seq<Locations.Location>, now: int)
    requires row.entry.status == Queue.Waiting && row.entry.notifiedAt.None?
    requires row.entry.joinedAt <= now && row.entry.estimatedWaitTime < Queue.DefaultMinutesBefore
    ensures StatusOf(row, now).shouldNotify
    ensures !Queue.NeedsNotification(row.entry, locations, Queue.DefaultMinutesBefore, now)
  {
  }

  /** The completion handler: an id `parseInt` cannot read completes nothing;
      either way the reply is a success. Positions are not renumbered. */
  method Complete(entryIdParam: string, queue: Queue.QueueRepository, now: int)
    returns (r: Reply<string, NoDetails>)
    requires queue.Valid()
    modifies queue
    ensures queue.Valid()
    ensures r == Success(200, "Queue entry completed")
    ensures ParseInt(entryIdParam).None? ==> queue.entries == old(queue.entries)
    ensures ParseInt(entryIdParam).Some? ==>
      queue.entries == Queue.MarkedCompleted(old(queue.entries), ParseInt(entryIdParam).value, now)
  {
    var entryId := ParseInt(entryIdParam);
    if entryId.Some? {
      queue.CompleteEntry(entryId.value, now);
    }
    return Success(200, "Queue entry completed");
  }

  /** The length reply: `locationId` is `null` when the parameter is not a number. */
  datatype LengthReply = LengthReply(locationId: Option<int>, queueLength: nat)

  /** The length handler: an unreadable id matches no row, so its length is 0. */
  function GetLength(entries: seq<Queue.QueueEntry>, locationIdParam: string): (r: Reply<LengthReply, NoDetails>)
    ensures r.Success? && r.status == 200 && r.body.locationId == ParseInt(locationIdParam)
    ensures r.body.queueLength == if ParseInt(locationIdParam).None? then 0
      else |Seqs.Filter(entries, Queue.IsWaitingAt(ParseInt(locationIdParam).value))|
  {
    var locationId := ParseInt(locationIdParam);
    match locationId
    case None => Success(200, LengthReply(None, 0))
    case Some(id) =>
      Queue.LengthIsFilterLength(entries, id);
      Success(200, LengthReply(locationId, Queue.GetQueueLength(entries, id)))
  }
}
