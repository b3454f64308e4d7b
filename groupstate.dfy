/**
 * Which groups have the economy switched on (`CBCoinState`): an in-memory
 * set of active group ids mirrored by a persisted row per group. The
 * persisted write may throw; `writeFails` stands for that.
 */
module GroupState {
  import opened Common

  /** A row of the group_states collection. */
  datatype GroupRow = GroupRow(isActive: bool, createdAt: Option<int>, updatedAt: int)

  /** The in-memory set together with the persisted rows. */
  datatype Groups = Groups(active: set<string>, rows: map<string, GroupRow>)

  /** The replies of `openCBCoin` and `closeCBCoin`. */
  datatype StateReply =
    | AlreadyActive
    | Activated
    | ActivateFailed
    | AlreadyInactive
    | Deactivated
    | DeactivateFailed

  /** The set agrees with the rows: a group is active exactly when its row says so. */
  ghost predicate Mirrors(s: Groups)
  {
    forall g :: g in s.active <==> g in s.rows && s.rows[g].isActive
  }

  /** `openCBCoin`: refuse an active group; otherwise upsert the row as active, then add to the set. */
  function Open(s: Groups, g: string, now: int, writeFails: bool): (r: (Groups, StateReply))
    ensures g in s.active ==> r == (s, AlreadyActive)
    ensures g !in s.active && writeFails ==> r == (s, ActivateFailed)
    ensures g !in s.active && !writeFails ==>
      r.1 == Activated && r.0.active == s.active + {g} && g in r.0.rows && r.0.rows[g].isActive
    ensures g !in s.active && !writeFails ==>
      r.0.rows[g].updatedAt == now &&
      r.0.rows[g].createdAt == (if g in s.rows then s.rows[g].createdAt else Some(now))
    ensures forall h :: h != g ==> (h in r.0.rows <==> h in s.rows) && (h in s.rows ==> r.0.rows[h] == s.rows[h])
  {
    if g in s.active then (s, AlreadyActive)
    else if writeFails then (s, ActivateFailed)
    else
      var row := if g in s.rows then s.rows[g].(isActive := true, updatedAt := now)
                 else GroupRow(true, Some(now), now);
      (Groups(s.active + {g}, s.rows[g := row]), Activated)
  }

  /** `closeCBCoin`: refuse an inactive group; otherwise mark an existing row inactive (no upsert), then remove from the set. */
  function Close(s: Groups, g: string, now: int, writeFails: bool): (r: (Groups, StateReply))
    ensures g !in s.active ==> r == (s, AlreadyInactive)
    ensures g in s.active && writeFails ==> r == (s, DeactivateFailed)
    ensures g in s.active && !writeFails ==> r.1 == Deactivated && r.0.active == s.active - {g}
    ensures g in s.active && !writeFails ==>
      (g in r.0.rows <==> g in s.rows) &&
      (g in s.rows ==> r.0.rows[g] == s.rows[g].(isActive := false, updatedAt := now))
    ensures forall h :: h != g ==> (h in r.0.rows <==> h in s.rows) && (h in s.rows ==> r.0.rows[h] == s.rows[h])
  {
    if g !in s.active then (s, AlreadyInactive)
    else if writeFails then (s, DeactivateFailed)
    else
      var rows := if g in s.rows then s.rows[g := s.rows[g].(isActive := false, updatedAt := now)] else s.rows;
      (Groups(s.active - {g}, rows), Deactivated)
  }

  /** Opening and closing keep the set and the rows in agreement. */
  lemma OpenCloseMirror(s: Groups, g: string, now: int, writeFails: bool)
    requires Mirrors(s)
    ensures Mirrors(Open(s, g, now, writeFails).0)
    ensures Mirrors(Close(s, g, now, writeFails).0)
  {
    var c := Close(s, g, now, writeFails).0;
    if g in s.active && !writeFails {
      forall h ensures h in c.active <==> h in c.rows && c.rows[h].isActive {
        if h != g {
          assert h in c.active <==> h in s.active;
        }
      }
    }
  }

  /** Opening an inactive group and closing it again restores the set; a second open is refused. */
  lemma OpenThenClose(s: Groups, g: string, t1: int, t2: int)
    requires g !in s.active
    ensures var afterOpen := Open(s, g, t1, false).0;
      Open(afterOpen, g, t2, false).1 == AlreadyActive &&
      Close(afterOpen, g, t2, false).0.active == s.active
  {
    var afterOpen := Open(s, g, t1, false).0;
    assert afterOpen.active - {g} == s.active;
  }

  /** A failed write changes neither the set nor the rows. */
  lemma FailedWriteChangesNothing(s: Groups, g: string, now: int)
    ensures Open(s, g, now, true).0 == s
    ensures Close(s, g, now, true).0 == s
  {
  }

  class CBCoinState {
    var activeGroups: set<string>
    var rows: map<string, GroupRow>

    function State(): Groups
      reads this
    {
      Groups(activeGroups, rows)
    }

    constructor ()
      ensures activeGroups == {} && rows == map[]
    {
      activeGroups := {};
      rows := map[];
    }

    /** `connect`: add every group whose row is active to the set. */
    method Connect()
      modifies this`activeGroups
      ensures activeGroups == old(activeGroups) + (set g | g in rows && rows[g].isActive)
    {
      activeGroups := activeGroups + (set g | g in rows && rows[g].isActive);
    }

    method OpenCBCoin(groupId: string, now: int, writeFails: bool) returns (reply: StateReply)
      modifies this
      ensures (State(), reply) == Open(old(State()), groupId, now, writeFails)
    {
      if groupId in activeGroups {
        return AlreadyActive;
      }
      if writeFails {
        return ActivateFailed;
      }
      var row := if groupId in rows then rows[groupId].(isActive := true, updatedAt := now)
                 else GroupRow(true, Some(now), now);
      rows := rows[groupId := row];
      activeGroups := activeGroups + {groupId};
      reply := Activated;
    }

    method CloseCBCoin(groupId: string, now: int, writeFails: bool) returns (reply: StateReply)
      modifies this
      ensures (State(), reply) == Close(old(State()), groupId, now, writeFails)
    {
      if groupId !in activeGroups {
        return AlreadyInactive;
      }
      if writeFails {
        return DeactivateFailed;
      }
      if groupId in rows {
        rows := rows[groupId := rows[groupId].(isActive := false, updatedAt := now)];
      }
      activeGroups := activeGroups - {groupId};
      reply := Deactivated;
    }

    /** `isActive`: membership in the in-memory set. */
    function IsActive(groupId: string): (b: bool)
      reads this
      ensures b <==> groupId in activeGroups
    {
      groupId in activeGroups
    }
  }
}
