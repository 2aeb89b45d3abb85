/**
 * The task allocator of main.go.
 *
 * Agents have a capacity and a count of active tasks. A new task goes to an
 * agent below capacity with the fewest active tasks; among those, to the one
 * idle longest (smallest LastAssigned); among full ties, to the earliest in
 * the list. A logical clock, bumped on every assignment, stamps LastAssigned.
 */
module TaskAllocation {

  datatype Agent = Agent(id: string, capacity: int, activeTask: int, lastAssigned: int)

  /** The capacity AddAgent uses when it is given none (capacity <= 0). */
  const DefaultCapacity := 2

  /** The selection loop skips an agent exactly when ActiveTask == Capacity. */
  predicate HasRoom(a: Agent)
  {
    a.activeTask != a.capacity
  }

  /** The selection loop's test for replacing the current choice b with a:
      fewer active tasks, or as many and assigned less recently. */
  predicate Preferred(a: Agent, b: Agent)
  {
    a.activeTask < b.activeTask || (a.activeTask == b.activeTask && a.lastAssigned < b.lastAssigned)
  }

  /** k is the agent the allocation rule picks: it has room, no agent with
      room is preferred to it, and every earlier agent with room is strictly
      worse (so a full tie goes to the earliest). */
  ghost predicate IsPick(agents: seq<Agent>, k: int)
  {
    && 0 <= k < |agents|
    && HasRoom(agents[k])
    && (forall j :: 0 <= j < |agents| && HasRoom(agents[j]) ==> !Preferred(agents[j], agents[k]))
    && (forall j :: 0 <= j < k && HasRoom(agents[j]) ==> Preferred(agents[k], agents[j]))
  }

  /** 0 <= ActiveTask <= Capacity, the bound every operation keeps. */
  predicate WithinCapacity(a: Agent)
  {
    0 <= a.activeTask <= a.capacity
  }

  /** The rule determines the agent: two picks are the same index. */
  lemma PickIsUnique(agents: seq<Agent>, k1: int, k2: int)
    requires IsPick(agents, k1) && IsPick(agents, k2)
    ensures k1 == k2
  {
  }

  /** The selection loop of AssignOneTask: the index of the agent the rule
      picks, or -1 when every agent is at capacity. */
  method PickAgent(agents: seq<Agent>) returns (oneTask: int)
    ensures oneTask == -1 <==> forall j :: 0 <= j < |agents| ==> !HasRoom(agents[j])
    ensures oneTask != -1 ==> IsPick(agents, oneTask)
  {
    oneTask := -1;
    for i := 0 to |agents|
      invariant -1 <= oneTask < i
      invariant oneTask == -1 <==> forall j :: 0 <= j < i ==> !HasRoom(agents[j])
      invariant oneTask != -1 ==> HasRoom(agents[oneTask])
      invariant oneTask != -1 ==> forall j :: 0 <= j < i && HasRoom(agents[j]) ==> !Preferred(agents[j], agents[oneTask])
      invariant oneTask != -1 ==> forall j :: 0 <= j < oneTask && HasRoom(agents[j]) ==> Preferred(agents[oneTask], agents[j])
    {
      var a := agents[i];
      if a.activeTask == a.capacity {
        continue;
      }
      if oneTask == -1 {
        oneTask := i;
        continue;
      }
      var b := agents[oneTask];
      if a.activeTask < b.activeTask {
        oneTask := i;
        continue;
      }
      if a.activeTask > b.activeTask {
        continue;
      }
      if a.lastAssigned < b.lastAssigned {
        oneTask := i;
        continue;
      }
    }
  }

  /** The index of the first agent with the given id, or -1. */
  function FirstWithId(agents: seq<Agent>, id: string): (k: int)
    ensures -1 <= k < |agents|
    ensures k == -1 <==> forall j :: 0 <= j < |agents| ==> agents[j].id != id
    ensures k != -1 ==> agents[k].id == id && forall j :: 0 <= j < k ==> agents[j].id != id
  {
    if agents == [] then -1
    else if agents[0].id == id then 0
    else
      var k := FirstWithId(agents[1..], id);
      if k == -1 then -1 else k + 1
  }

  class TaskAllocator {
    var agents: seq<Agent>
    var clock: int

    /** Every agent is within capacity and was last assigned no later than
        the clock shows. */
    ghost predicate Valid()
      reads this
    {
      && 0 <= clock
      && forall i :: 0 <= i < |agents| ==> WithinCapacity(agents[i]) && 0 <= agents[i].lastAssigned <= clock
    }

    /** The zero value of the Go struct. */
    constructor ()
      ensures Valid() && agents == [] && clock == 0
    {
      agents, clock := [], 0;
    }

    /** Appends an idle agent; a capacity <= 0 becomes the default 2. */
    method AddAgent(id: string, capacity: int)
      requires Valid()
      modifies this
      ensures Valid()
      ensures agents == old(agents) + [Agent(id, if capacity <= 0 then DefaultCapacity else capacity, 0, 0)]
      ensures clock == old(clock)
    {
      var c := capacity;
      if c <= 0 {
        c := DefaultCapacity;
      }
      agents := agents + [Agent(id, c, 0, 0)];
    }

    /** Gives one task to the agent the rule picks: its count goes up by one,
        the clock ticks and the agent is stamped with the new time. Nothing
        changes when every agent is full. */
    method AssignOneTask() returns (id: string, ok: bool)
      requires Valid()
      modifies this
      ensures Valid()
      ensures ok <==> exists j :: 0 <= j < |old(agents)| && HasRoom(old(agents)[j])
      ensures !ok ==> id == "" && agents == old(agents) && clock == old(clock)
      ensures ok ==> clock == old(clock) + 1
      ensures ok ==> exists k :: IsPick(old(agents), k)
                       && id == old(agents)[k].id
                       && agents == old(agents)[k := old(agents)[k].(activeTask := old(agents)[k].activeTask + 1,
                                                                  lastAssigned := clock)]
    {
      var oneTask := PickAgent(agents);
      if oneTask == -1 {
        return "", false;
      }
      var a := agents[oneTask];
      clock := clock + 1;
      agents := agents[oneTask := a.(activeTask := a.activeTask + 1, lastAssigned := clock)];
      return a.id, true;
    }

    /** Takes one task away from the first agent with the id, when it has
        one; otherwise nothing changes. */
    method CompleteTask(id: string) returns (done: bool)
      requires Valid()
      modifies this
      ensures Valid()
      ensures clock == old(clock)
      ensures var k := FirstWithId(old(agents), id);
        && done == (k != -1 && old(agents)[k].activeTask > 0)
        && agents == if done then old(agents)[k := old(agents)[k].(activeTask := old(agents)[k].activeTask - 1)]
                     else old(agents)
    {
      for i := 0 to |agents|
        invariant agents == old(agents)
        invariant forall j :: 0 <= j < i ==> agents[j].id != id
      {
        if agents[i].id == id {
          if agents[i].activeTask > 0 {
            agents := agents[i := agents[i].(activeTask := agents[i].activeTask - 1)];
            return true;
          }
          return false;
        }
      }
      return false;
    }

    /** A copy of the agent list. */
    method Printer() returns (copy: seq<Agent>)
      ensures copy == agents
    {
      copy := agents;
    }
  }
}
