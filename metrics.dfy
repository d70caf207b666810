/** Server counters and the health classification
    (internal/services/metrics.go). Counter updates are atomic additions in
    the server; here they are sequential updates of one object. */
module ServerMetrics {

  /** Every counter at one moment. */
  datatype Counts = Counts(
    activeConnections: int,
    totalConnections: int,
    activeRooms: int,
    messagesReceived: int,
    messagesSent: int,
    lastMessageTime: int,
    connectionErrors: int,
    broadcastErrors: int,
    rateLimitViolations: int)

  const StatusHealthy: string := "healthy"
  const StatusWarning: string := "warning"
  const StatusCritical: string := "critical"

  /** `calculateHealthStatus` on the three readings it uses: critical above
      90% of capacity (9000 connections or 900 rooms), warning above 80%
      (8000 or 800) or after more than 100 connection and broadcast errors,
      healthy otherwise. */
  function HealthStatus(activeConns: int, activeRooms: int, errors: int): (s: string)
    ensures s == StatusCritical <==> activeConns > 9000 || activeRooms > 900
    ensures s == StatusWarning <==>
      !(activeConns > 9000 || activeRooms > 900) && (activeConns > 8000 || activeRooms > 800 || errors > 100)
    ensures s == StatusHealthy <==> activeConns <= 8000 && activeRooms <= 800 && errors <= 100
  {
    if activeConns > 9000 || activeRooms > 900 then StatusCritical
    else if activeConns > 8000 || activeRooms > 800 || errors > 100 then StatusWarning
    else StatusHealthy
  }

  /** Errors alone never make the status critical: with load under the
      critical thresholds it is at worst a warning, whatever the error count. */
  lemma ErrorsNeverCritical(activeConns: int, activeRooms: int, errors: int, moreErrors: int)
    requires activeConns <= 9000 && activeRooms <= 900
    ensures HealthStatus(activeConns, activeRooms, errors) != StatusCritical
    ensures errors <= moreErrors && HealthStatus(activeConns, activeRooms, errors) == StatusWarning ==>
      HealthStatus(activeConns, activeRooms, moreErrors) == StatusWarning
  {
  }

  class Metrics {
    var activeConnections: int
    var totalConnections: int
    var activeRooms: int
    var messagesReceived: int
    var messagesSent: int
    var lastMessageTime: int
    var connectionErrors: int
    var broadcastErrors: int
    var rateLimitViolations: int

    function Snapshot(): Counts
      reads this
    {
      Counts(activeConnections, totalConnections, activeRooms, messagesReceived, messagesSent,
             lastMessageTime, connectionErrors, broadcastErrors, rateLimitViolations)
    }

    /** What the updates keep: the totals never drop below zero and every
        active connection was counted in the total. */
    ghost predicate Valid()
      reads this
    {
      0 <= totalConnections && activeConnections <= totalConnections
      && 0 <= messagesReceived && 0 <= messagesSent
      && 0 <= connectionErrors && 0 <= broadcastErrors && 0 <= rateLimitViolations
    }

    /** `NewMetrics`: every counter at zero. */
    constructor ()
      ensures Valid()
      ensures Snapshot() == Counts(0, 0, 0, 0, 0, 0, 0, 0, 0)
    {
      activeConnections, totalConnections, activeRooms := 0, 0, 0;
      messagesReceived, messagesSent, lastMessageTime := 0, 0, 0;
      connectionErrors, broadcastErrors, rateLimitViolations := 0, 0, 0;
    }

    /** `IncrementConnections`: one more active and one more in total. */
    method IncrementConnections()
      requires Valid()
      modifies this
      ensures Valid()
      ensures Snapshot() == old(Snapshot()).(activeConnections := old(activeConnections) + 1,
                                             totalConnections := old(totalConnections) + 1)
    {
      activeConnections := activeConnections + 1;
      totalConnections := totalConnections + 1;
    }

    /** `DecrementConnections`: one fewer active; the total is kept. */
    method DecrementConnections()
      requires Valid()
      modifies this
      ensures Valid()
      ensures Snapshot() == old(Snapshot()).(activeConnections := old(activeConnections) - 1)
      ensures totalConnections == old(totalConnections)
    {
      activeConnections := activeConnections - 1;
    }

    /** `IncrementRooms`. */
    method IncrementRooms()
      requires Valid()
      modifies this
      ensures Valid()
      ensures Snapshot() == old(Snapshot()).(activeRooms := old(activeRooms) + 1)
    {
      activeRooms := activeRooms + 1;
    }

    /** `DecrementRooms`. */
    method DecrementRooms()
      requires Valid()
      modifies this
      ensures Valid()
      ensures Snapshot() == old(Snapshot()).(activeRooms := old(activeRooms) - 1)
    {
      activeRooms := activeRooms - 1;
    }

    /** `IncrementMessagesReceived`: also records the time (seconds). */
    method IncrementMessagesReceived(now: int)
      requires Valid()
      modifies this
      ensures Valid()
      ensures Snapshot() == old(Snapshot()).(messagesReceived := old(messagesReceived) + 1, lastMessageTime := now)
    {
      messagesReceived := messagesReceived + 1;
      lastMessageTime := now;
    }

    /** `IncrementMessagesSent`. */
    method IncrementMessagesSent()
      requires Valid()
      modifies this
      ensures Valid()
      ensures Snapshot() == old(Snapshot()).(messagesSent := old(messagesSent) + 1)
    {
      messagesSent := messagesSent + 1;
    }

    /** `IncrementConnectionErrors`. */
    method IncrementConnectionErrors()
      requires Valid()
      modifies this
      ensures Valid()
      ensures Snapshot() == old(Snapshot()).(connectionErrors := old(connectionErrors) + 1)
    {
      connectionErrors := connectionErrors + 1;
    }

    /** `IncrementBroadcastErrors`. */
    method IncrementBroadcastErrors()
      requires Valid()
      modifies this
      ensures Valid()
      ensures Snapshot() == old(Snapshot()).(broadcastErrors := old(broadcastErrors) + 1)
    {
      broadcastErrors := broadcastErrors + 1;
    }

    /** `IncrementRateLimitViolations`. */
    method IncrementRateLimitViolations()
      requires Valid()
      modifies this
      ensures Valid()
      ensures Snapshot() == old(Snapshot()).(rateLimitViolations := old(rateLimitViolations) + 1)
    {
      rateLimitViolations := rateLimitViolations + 1;
    }

    /** `calculateHealthStatus`: errors are the connection and broadcast
        errors together. */
    function CalculateHealthStatus(): (s: string)
      reads this
      ensures s == HealthStatus(activeConnections, activeRooms, connectionErrors + broadcastErrors)
    {
      HealthStatus(activeConnections, activeRooms, connectionErrors + broadcastErrors)
    }
  }
}
