/** Passing a Lua table of descriptors to poll() and its answers back (ext/posix/poll.c). The table is
    visited three times, always in the same order; the C array has no keys. */
module PollMarshal {

  /** A C short holding event bits, as the set of their positions. */
  type Events = set<nat>

  const PPOLL_EVENT_NUM: nat := 6
  const STATIC_FDS: nat := 16

  /** poll_event_map: POLLIN, POLLPRI, POLLOUT, POLLERR, POLLHUP and POLLNVAL are 1 to 32. */
  function EventName(bit: nat): (name: string)
    requires bit < PPOLL_EVENT_NUM
  {
    ["IN", "PRI", "OUT", "ERR", "HUP", "NVAL"][bit]
  }

  lemma EventNamesDiffer(a: nat, b: nat)
    requires a < PPOLL_EVENT_NUM && b < PPOLL_EVENT_NUM && EventName(a) == EventName(b)
    ensures a == b
  {
    assert |EventName(0)| == 2 && |EventName(5)| == 4;
    assert EventName(1)[0] == 'P' && EventName(2)[0] == 'O' && EventName(3)[0] == 'E' && EventName(4)[0] == 'H';
  }

  // ---------------------------------------------------------------------------
  // One table of flags
  // ---------------------------------------------------------------------------

  /** The fields of a Lua table, by what lua_toboolean makes of them. */
  type Flags = map<string, bool>

  predicate Truthy(flags: Flags, name: string) { name in flags && flags[name] }

  function Encode(flags: Flags, n: nat): Events
    requires n <= PPOLL_EVENT_NUM
  {
    set bit: nat | bit < n && Truthy(flags, EventName(bit))
  }

  function Decode(flags: Flags, events: Events, n: nat): Flags
    requires n <= PPOLL_EVENT_NUM
  {
    if n == 0 then flags else Decode(flags, events, n - 1)[EventName(n - 1) := (n - 1) in events]
  }

  /** The six names get the six bits, and no other field changes. */
  lemma {:induction false} DecodeIs(flags: Flags, events: Events, n: nat)
    requires n <= PPOLL_EVENT_NUM
    ensures var d := Decode(flags, events, n);
            && (forall bit: nat :: bit < n ==> EventName(bit) in d && d[EventName(bit)] == (bit in events))
            && (forall name :: (forall bit: nat :: bit < n ==> name != EventName(bit)) ==>
                  (name in d <==> name in flags) && (name in flags ==> d[name] == flags[name]))
  {
    if n > 0 {
      DecodeIs(flags, events, n - 1);
      forall bit: nat | bit < n - 1
        ensures EventName(bit) != EventName(n - 1)
      {
        if EventName(bit) == EventName(n - 1) {
          EventNamesDiffer(bit, n - 1);
        }
      }
    }
  }

  /** Reading back what was written gives the six bits, whatever the table held before. */
  lemma EncodeDecode(flags: Flags, events: Events)
    ensures Encode(Decode(flags, events, PPOLL_EVENT_NUM), PPOLL_EVENT_NUM)
         == set bit | bit in events && bit < PPOLL_EVENT_NUM
  {
    DecodeIs(flags, events, PPOLL_EVENT_NUM);
  }

  /** Writing back what was read leaves every name as true as it was. */
  lemma DecodeEncode(flags: Flags, name: string)
    ensures Truthy(Decode(flags, Encode(flags, PPOLL_EVENT_NUM), PPOLL_EVENT_NUM), name) == Truthy(flags, name)
  {
    DecodeIs(flags, Encode(flags, PPOLL_EVENT_NUM), PPOLL_EVENT_NUM);
    if bit: nat :| bit < PPOLL_EVENT_NUM && name == EventName(bit) {
      assert Truthy(Decode(flags, Encode(flags, PPOLL_EVENT_NUM), PPOLL_EVENT_NUM), name)
          == (bit in Encode(flags, PPOLL_EVENT_NUM));
    }
  }

  /** The names that are true are those of the bits: POLLIN is 1, POLLPRI 2, POLLOUT 4, and so on. */
  predicate Says(flags: Flags, events: Events) {
    && (Truthy(flags, "IN") <==> 0 in events) && (Truthy(flags, "PRI") <==> 1 in events)
    && (Truthy(flags, "OUT") <==> 2 in events) && (Truthy(flags, "ERR") <==> 3 in events)
    && (Truthy(flags, "HUP") <==> 4 in events) && (Truthy(flags, "NVAL") <==> 5 in events)
  }

  /** What is read is what the names say, and what is written too. */
  lemma EncodeSays(flags: Flags)
    ensures Says(flags, Encode(flags, PPOLL_EVENT_NUM))
    ensures forall bit :: bit in Encode(flags, PPOLL_EVENT_NUM) ==> bit < 6
  {
    assert EventName(0) == "IN" && EventName(1) == "PRI" && EventName(2) == "OUT" && EventName(3) == "ERR"
        && EventName(4) == "HUP" && EventName(5) == "NVAL";
  }

  lemma DecodeSays(flags: Flags, events: Events)
    ensures Says(Decode(flags, events, PPOLL_EVENT_NUM), events)
  {
    DecodeIs(flags, events, PPOLL_EVENT_NUM);
    assert EventName(0) == "IN" && EventName(1) == "PRI" && EventName(2) == "OUT" && EventName(3) == "ERR"
        && EventName(4) == "HUP" && EventName(5) == "NVAL";
  }

  class EventTable {
    var flags: Flags

    constructor ()
      ensures flags == map[]
    {
      flags := map[];
    }

    /** poll_events_from_table */
    method ToEvents() returns (events: Events)
      ensures events == Encode(flags, PPOLL_EVENT_NUM)
    {
      events := {};
      for i := 0 to PPOLL_EVENT_NUM
        invariant events == Encode(flags, i)
      {
        if Truthy(flags, EventName(i)) {
          events := events + {i};
        }
        EncodeNext(flags, i);
      }
    }

    /** poll_events_to_table */
    method FromEvents(events: Events)
      modifies this
      ensures flags == Decode(old(flags), events, PPOLL_EVENT_NUM)
    {
      for i := 0 to PPOLL_EVENT_NUM
        invariant flags == Decode(old(flags), events, i)
      {
        flags := flags[EventName(i) := i in events];
      }
    }
  }

  lemma EncodeNext(flags: Flags, i: nat)
    requires i < PPOLL_EVENT_NUM
    ensures Encode(flags, i + 1) == Encode(flags, i) + if Truthy(flags, EventName(i)) then {i} else {}
  {
  }

  // ---------------------------------------------------------------------------
  // The table of descriptors
  // ---------------------------------------------------------------------------

  datatype Key = Integer(fd: int) | OtherKey

  datatype Field = Nil | TableField(table: EventTable) | OtherField

  datatype Value = Entry(entry: FdEntry) | OtherValue

  class FdEntry {
    var events: Field
    var revents: Field
  }

  /** The pairs of a Lua table in the order lua_next visits them. */
  type FdTable = seq<(Key, Value)>

  datatype PollFd = PollFd(fd: int, events: Events, revents: Events)

  /** A Lua integer assigned to a C int. */
  function ToInt(x: int): int { (x + 0x8000_0000) % 0x1_0000_0000 - 0x8000_0000 }

  predicate PairOk(p: (Key, Value))
    reads if p.1.Entry? then {p.1.entry} else {}
  {
    p.0.Integer? && p.1.Entry? && p.1.entry.events.TableField? && !p.1.entry.revents.OtherField?
  }

  /** The validating pass: the number of pairs, or an argument error. */
  method CheckTable(t: FdTable) returns (ok: bool, n: nat)
    ensures ok <==> forall i :: 0 <= i < |t| ==> PairOk(t[i])
    ensures ok ==> n == |t|
  {
    n := 0;
    for i := 0 to |t|
      invariant n == i && forall j :: 0 <= j < i ==> PairOk(t[j])
    {
      if !t[i].0.Integer? {
        return false, n;
      }
      if !t[i].1.Entry? {
        return false, n;
      }
      if !t[i].1.entry.events.TableField? {
        return false, n;
      }
      if t[i].1.entry.revents.OtherField? {
        return false, n;
      }
      n := n + 1;
    }
    ok := true;
  }

  /** The values of the table. */
  function Entries(t: FdTable): (es: seq<FdEntry>)
    requires forall i :: 0 <= i < |t| ==> t[i].1.Entry?
    ensures |es| == |t| && forall i :: 0 <= i < |t| ==> es[i] == t[i].1.entry
  {
    seq(|t|, i requires 0 <= i < |t| => t[i].1.entry)
  }

  /** The keys of the table. */
  function Keys(t: FdTable): (ks: seq<int>)
    requires forall i :: 0 <= i < |t| ==> t[i].0.Integer?
    ensures |ks| == |t| && forall i :: 0 <= i < |t| ==> ks[i] == t[i].0.fd
  {
    seq(|t|, i requires 0 <= i < |t| => t[i].0.fd)
  }

  predicate EntryOk(e: FdEntry)
    reads e
  {
    e.events.TableField? && !e.revents.OtherField?
  }

  ghost predicate AllOk(es: seq<FdEntry>)
    reads es
  {
    forall i :: 0 <= i < |es| ==> EntryOk(es[i])
  }

  /** No two descriptors share a value, and no table of results is used for anything else. */
  ghost predicate Unshared(es: seq<FdEntry>)
    reads es
  {
    && (forall i, j :: 0 <= i < j < |es| ==> es[i] != es[j])
    && (forall i, j :: 0 <= i < |es| && 0 <= j < |es| && es[i].revents.TableField? ==>
          && (es[j].events.TableField? ==> es[i].revents.table != es[j].events.table)
          && (i != j && es[j].revents.TableField? ==> es[i].revents.table != es[j].revents.table))
  }

  /** The tables of results there are already. */
  ghost function ResultTables(es: seq<FdEntry>): set<EventTable>
    reads es
  {
    set i | 0 <= i < |es| && es[i].revents.TableField? :: es[i].revents.table
  }

  /** The flags in a descriptor's table of results, none when it has no table yet. */
  ghost function Results(e: FdEntry): Flags
    reads e, if e.revents.TableField? then {e.revents.table} else {}
  {
    if e.revents.TableField? then e.revents.table.flags else map[]
  }

  ghost function EventTables(es: seq<FdEntry>): set<EventTable>
    reads es
  {
    set i | 0 <= i < |es| && es[i].events.TableField? :: es[i].events.table
  }

  /** The flags of every descriptor's table of events, and of results. */
  ghost function AllEvents(es: seq<FdEntry>): (fs: seq<Flags>)
    requires AllOk(es)
    reads es, EventTables(es)
    ensures |fs| == |es| && forall i :: 0 <= i < |es| ==> fs[i] == es[i].events.table.flags
  {
    seq(|es|, i requires 0 <= i < |es| && EntryOk(es[i]) reads es, EventTables(es) => es[i].events.table.flags)
  }

  ghost function AllResults(es: seq<FdEntry>): (fs: seq<Flags>)
    reads es, ResultTables(es)
    ensures |fs| == |es| && forall i :: 0 <= i < |es| ==> fs[i] == Results(es[i])
  {
    seq(|es|, i requires 0 <= i < |es| reads es, ResultTables(es) => Results(es[i]))
  }

  /** The kernel is asked for every pair: its descriptor, and the bits of its table of events. */
  ghost predicate AsksFor(asked: seq<PollFd>, keys: seq<int>, events: seq<Flags>) {
    && |asked| == |keys| == |events|
    && forall i :: 0 <= i < |asked| ==> Asks(asked[i], keys[i], events[i])
  }

  /** The descriptor as a 32-bit int, and the bits of the names that are true. */
  ghost predicate Asks(asked: PollFd, key: int, events: Flags) {
    && -0x8000_0000 <= asked.fd < 0x8000_0000 && (key - asked.fd) % 0x1_0000_0000 == 0
    && Says(events, asked.events) && forall bit :: bit in asked.events ==> bit < 6
  }

  lemma EntryAsks(asked: PollFd, key: int, events: Flags)
    requires asked.fd == ToInt(key) && asked.events == Encode(events, PPOLL_EVENT_NUM)
    ensures Asks(asked, key, events)
  {
    EncodeSays(events);
  }

  /** poll_fd_list_from_table */
  method FromTable(keys: seq<int>, es: seq<FdEntry>, list: array<PollFd>)
    requires AllOk(es) && |keys| == |es| <= list.Length
    modifies list
    ensures AsksFor(list[..|es|], keys, old(AllEvents(es)))
    ensures forall i :: |es| <= i < list.Length ==> list[i] == old(list[i])
  {
    ghost var flags := AllEvents(es);
    for i := 0 to |es|
      invariant forall j :: 0 <= j < i ==> list[j].fd == ToInt(keys[j])
      invariant forall j :: 0 <= j < i ==> list[j].events == Encode(flags[j], PPOLL_EVENT_NUM)
      invariant forall j :: i <= j < list.Length ==> list[j] == old(list[j])
    {
      var events := es[i].events.table.ToEvents();
      list[i] := PollFd(ToInt(keys[i]), events, list[i].revents);
    }
    forall i | 0 <= i < |es| ensures Asks(list[i], keys[i], flags[i]) {
      EntryAsks(list[i], keys[i], flags[i]);
    }
  }

  /** One turn of poll_fd_list_to_table. */
  method StoreResult(e: FdEntry, revents: Events)
    requires EntryOk(e)
    modifies e`revents, if e.revents.TableField? then {e.revents.table} else {}
    ensures e.revents.TableField?
    ensures if old(e.revents.TableField?) then e.revents == old(e.revents) else fresh(e.revents.table)
    ensures e.revents.table.flags == Decode(old(Results(e)), revents, PPOLL_EVENT_NUM)
  {
    if e.revents.Nil? {
      var table := new EventTable();
      e.revents := TableField(table);
    }
    e.revents.table.FromEvents(revents);
  }

  /** The same, seen from the whole table: nothing else changes, and nothing comes to be shared. */
  method StoreAt(es: seq<FdEntry>, i: nat, e: FdEntry, revents: Events)
    requires AllOk(es) && Unshared(es) && i < |es| && e == es[i]
    modifies e`revents, if e.revents.TableField? then {e.revents.table} else {}
    ensures AllOk(es) && Unshared(es)
    ensures AllEvents(es) == old(AllEvents(es))
    ensures forall j :: 0 <= j < |es| && j != i ==> es[j].revents == old(es[j].revents)
    ensures es[i].revents.TableField?
    ensures if old(es[i].revents.TableField?) then es[i].revents == old(es[i].revents) else fresh(es[i].revents.table)
    ensures AllResults(es) == old(AllResults(es))[i := Decode(old(Results(es[i])), revents, PPOLL_EVENT_NUM)]
  {
    StoreResult(e, revents);
  }

  /** The first n tables of results are written, the others not. */
  ghost function Decoded(before: seq<Flags>, list: seq<PollFd>, n: nat): seq<Flags>
    requires n <= |before| <= |list|
  {
    seq(|before|, i requires 0 <= i < |before| =>
      if i < n then Decode(before[i], list[i].revents, PPOLL_EVENT_NUM) else before[i])
  }

  /** poll_fd_list_to_table */
  method ToTable(es: seq<FdEntry>, list: seq<PollFd>)
    requires AllOk(es) && Unshared(es) && |es| <= |list|
    modifies es`revents, ResultTables(es)
    ensures AllOk(es) && Unshared(es) && AllEvents(es) == old(AllEvents(es))
    ensures AllResults(es) == Decoded(old(AllResults(es)), list, |es|)
    ensures forall i :: 0 <= i < |es| ==> es[i].revents.TableField?
    ensures forall i :: 0 <= i < |es| ==> old(es[i].revents.TableField?) ==> es[i].revents == old(es[i].revents)
  {
    ghost var before := AllResults(es);
    assert Decoded(before, list, 0) == before;
    for i := 0 to |es|
      invariant AllOk(es) && Unshared(es) && AllEvents(es) == old(AllEvents(es))
      invariant AllResults(es) == Decoded(before, list, i)
      invariant forall j :: 0 <= j < |es| && old(es[j].revents.TableField?) ==> es[j].revents == old(es[j].revents)
      invariant forall j :: i <= j < |es| ==> es[j].revents == old(es[j].revents)
      invariant forall j :: 0 <= j < i ==> es[j].revents.TableField?
    {
      StoreAt(es, i, es[i], list[i].revents);
      assert Decoded(before, list, i + 1)
          == Decoded(before, list, i)[i := Decode(before[i], list[i].revents, PPOLL_EVENT_NUM)];
    }
  }

  /** What poll(2) answers: its result, and the revents of each array entry. */
  type Kernel = seq<PollFd> -> (int, nat -> Events)

  datatype Answer = ArgumentError | Returned(r: int)

  /** Every table of results gets the bits reported for its descriptor; its other fields stay. */
  ghost predicate Stored(before: seq<Flags>, after: seq<Flags>, revents: nat -> Events) {
    && |before| == |after|
    && forall i :: 0 <= i < |after| ==> after[i] == Decode(before[i], revents(i), PPOLL_EVENT_NUM)
  }

  /** The six names of every table of results say exactly which bits were reported. */
  ghost predicate AllSay(results: seq<Flags>, revents: nat -> Events) {
    forall i :: 0 <= i < |results| ==> Says(results[i], revents(i))
  }

  lemma StoredSays(before: seq<Flags>, after: seq<Flags>, revents: nat -> Events)
    requires Stored(before, after, revents)
    ensures AllSay(after, revents)
  {
    forall i | 0 <= i < |after| ensures Says(after[i], revents(i)) {
      DecodeSays(before[i], revents(i));
    }
  }

  /** poll_fd_list_to_table on what the kernel has filled in. */
  method Store(es: seq<FdEntry>, answers: seq<PollFd>, ghost revents: nat -> Events)
    requires AllOk(es) && Unshared(es) && |es| == |answers|
    requires forall i :: 0 <= i < |es| ==> answers[i].revents == revents(i)
    modifies es`revents, ResultTables(es)
    ensures AllOk(es) && AllEvents(es) == old(AllEvents(es))
    ensures Stored(old(AllResults(es)), AllResults(es), revents)
    ensures forall i :: 0 <= i < |es| ==> es[i].revents.TableField?
  {
    ToTable(es, answers);
  }

  /** poll() on a table that has passed the check. */
  method PollChecked(keys: seq<int>, es: seq<FdEntry>, kernel: Kernel) returns (r: int, asked: seq<PollFd>)
    requires AllOk(es) && Unshared(es) && |keys| == |es|
    modifies es`revents, ResultTables(es)
    ensures AllOk(es) && AllEvents(es) == old(AllEvents(es))
    ensures AsksFor(asked, keys, old(AllEvents(es))) && r == kernel(asked).0
    ensures r > 0 ==> Stored(old(AllResults(es)), AllResults(es), kernel(asked).1)
    ensures r > 0 ==> forall i :: 0 <= i < |es| ==> es[i].revents.TableField?
    ensures r <= 0 ==>
      AllResults(es) == old(AllResults(es)) && forall i :: 0 <= i < |es| ==> es[i].revents == old(es[i].revents)
  {
    asked := ToAsk(keys, es);
    var (res, revents) := kernel(asked);
    r := res;
    if r > 0 {
      var answers := seq(|es|, i requires 0 <= i < |es| => asked[i].(revents := revents(i)));
      Store(es, answers, revents);
    }
  }

  /** The array for poll(2): the static one when it is large enough, and its first entries. */
  method ToAsk(keys: seq<int>, es: seq<FdEntry>) returns (asked: seq<PollFd>)
    requires AllOk(es) && |keys| == |es|
    ensures AsksFor(asked, keys, AllEvents(es))
  {
    ghost var events := AllEvents(es);
    var n := |es|;
    var blank := PollFd(0, {}, {});
    var list := new PollFd[if n <= STATIC_FDS then STATIC_FDS else n](_ => blank);
    FromTable(keys, es, list);
    asked := list[..n];
    assert AllEvents(es) == events;
  }

  /** `asked` is what the kernel was given: one entry for every pair of the table, in its order. After
      a positive result every descriptor's `revents` says exactly what the kernel reported for it. */
  method Ppoll(t: FdTable, kernel: Kernel) returns (answer: Answer, asked: seq<PollFd>)
    requires (forall i :: 0 <= i < |t| ==> PairOk(t[i])) ==> Unshared(Entries(t))
    modifies (set p | p in t && p.1.Entry? :: p.1.entry),
             (set p | p in t && p.1.Entry? && p.1.entry.revents.TableField? :: p.1.entry.revents.table)
    ensures answer.ArgumentError? <==> !old(forall i :: 0 <= i < |t| ==> PairOk(t[i]))
    ensures answer.Returned? ==>
              && (forall i :: 0 <= i < |t| ==> t[i].0.Integer? && t[i].1.Entry?)
              && var es := Entries(t);
              && AllOk(es) && old(AllOk(es)) && AllEvents(es) == old(AllEvents(es))
              && AsksFor(asked, Keys(t), old(AllEvents(es))) && answer.r == kernel(asked).0
              && (answer.r > 0 ==>
                    && Stored(old(AllResults(es)), AllResults(es), kernel(asked).1)
                    && AllSay(AllResults(es), kernel(asked).1)
                    && (forall i :: 0 <= i < |t| ==> es[i].revents.TableField?))
              && (answer.r <= 0 ==> AllResults(es) == old(AllResults(es)))
  {
    asked := [];
    var ok, n := CheckTable(t);
    if !ok {
      return ArgumentError, asked;
    }
    var es := Entries(t);
    ghost var before := AllResults(es);
    var r;
    r, asked := PollChecked(Keys(t), es, kernel);
    if r > 0 {
      StoredSays(before, AllResults(es), kernel(asked).1);
    }
    answer := Returned(r);
  }
}
