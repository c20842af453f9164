/**
 * The connection table of src/core/looper.cpp: which descriptors are open, which timer each one is filed under, and
 * the timer queue. The methods are proved to do what the functions on `Tables` say; the protocol is built on those.
 */
module Loopers {
  import opened Prelude
  import opened Timers

  /**
   * An open connection, by its history, which no code reads: which user of its descriptor it is, when it was accepted
   * (its timer was made), when it was first refreshed in a later millisecond than that, and when it was last active.
   */
  datatype Conn = Conn(gen: nat, accepted: nat, later: Option<nat>, lastActive: nat)

  function Accepted(gen: nat, now: nat): Conn {
    Conn(gen, now, None, now)
  }

  function Heard(conn: Conn, now: nat): Conn {
    conn.(lastActive := now, later := if conn.later.None? && conn.accepted < now then Some(now) else conn.later)
  }

  datatype Tables = Tables(conns: map<int, Conn>, mapping: map<int, SingleTimer>, queue: seq<SingleTimer>)

  /** RefreshConnection files the new timer with map::insert, which leaves an existing entry alone. */
  datatype Filing = Overwrite | InsertIfAbsent

  function InsertConn(s: Tables, fd: int, conn: Conn): Tables {
    if fd in s.conns then s else s.(conns := s.conns[fd := conn])
  }

  function Arm(s: Tables, t: SingleTimer): Tables {
    s.(queue := Emplace(s.queue, t))
  }

  function FileTimer(s: Tables, fd: int, t: SingleTimer): Tables {
    if fd in s.mapping then s else s.(mapping := s.mapping[fd := t])
  }

  /** The connection has been heard from, whatever becomes of its timer. */
  function NoteActivity(s: Tables, fd: int, now: nat): Tables {
    if fd in s.conns then s.(conns := s.conns[fd := Heard(s.conns[fd], now)]) else s
  }

  /** The timer found under the filed one's expiry, if any, is replaced by one that expires `expiration` from now. */
  function Refreshed(s: Tables, filing: Filing, fd: int, id: nat, now: nat, expiration: nat): Tables {
    if fd !in s.mapping then s
    else
      match Lookup(s.queue, s.mapping[fd].expiry)
      case None => s
      case Some(u) =>
        var t := SingleTimer(id, now + expiration, u.fd, u.gen);
        Tables(s.conns,
               if filing.Overwrite? then s.mapping[fd := t] else s.mapping,
               Emplace(Erase(s.queue, s.mapping[fd].expiry), t))
  }

  function Deleted(s: Tables, fd: int): Tables {
    if fd !in s.conns then s
    else Tables(s.conns - {fd}, s.mapping - {fd},
                if fd in s.mapping then Erase(s.queue, s.mapping[fd].expiry) else s.queue)
  }

  class Looper {
    var connections: map<int, Conn>
    var timersMapping: map<int, SingleTimer>
    const timer: Timer
    const useTimer: bool
    const timerExpiration: nat
    const filing: Filing

    ghost function State(): Tables
      reads this, timer
    {
      Tables(connections, timersMapping, timer.queue)
    }

    ghost predicate Valid()
      reads this, timer
    {
      timer.Valid() && useTimer == (timerExpiration != 0) && (!useTimer ==> timersMapping == map[])
    }

    constructor (timerExpiration: nat, filing: Filing)
      ensures Valid() && fresh(timer) && State() == Tables(map[], map[], [])
      ensures this.timerExpiration == timerExpiration && this.filing == filing
    {
      connections, timersMapping := map[], map[];
      timer := new Timer();
      useTimer := timerExpiration != 0;
      this.timerExpiration, this.filing := timerExpiration, filing;
    }

    method AddConnection(fd: int, gen: nat, now: nat, setTime: nat)
      requires Valid()
      modifies this, timer
      ensures Valid()
      ensures var t := SingleTimer(old(timer.nextId), now + timerExpiration, fd, gen);
              var s := InsertConn(old(State()), fd, Accepted(gen, now));
              State() == if useTimer then FileTimer(Arm(s, t), fd, t) else s
      ensures fd in old(connections) ==> connections == old(connections)
      ensures fd in old(timersMapping) ==> timersMapping == old(timersMapping)
    {
      if fd !in connections {
        connections := connections[fd := Accepted(gen, now)];
      }
      if useTimer {
        var singleTimer := timer.AddSingleTimer(timerExpiration, fd, gen, now, setTime);
        if fd !in timersMapping {
          timersMapping := timersMapping[fd := singleTimer];
        }
      }
    }

    method RefreshConnection(fd: int, now: nat, setTime: nat) returns (known: bool)
      requires Valid()
      modifies this, timer
      ensures Valid() && known == (useTimer && fd in old(timersMapping))
      ensures var s := NoteActivity(old(State()), fd, now);
              State() == if useTimer then Refreshed(s, filing, fd, old(timer.nextId), now, timerExpiration) else s
      ensures !known ==> timersMapping == old(timersMapping) && timer.queue == old(timer.queue)
    {
      if fd in connections {
        connections := connections[fd := Heard(connections[fd], now)];
      }
      if !useTimer {
        return false;
      }
      if fd in timersMapping {
        var newTimer := timer.RefreshSingleTimer(timersMapping[fd], timerExpiration, now, setTime);
        if newTimer.Some? {
          if filing.Overwrite? {
            timersMapping := timersMapping[fd := newTimer.value];
          }
        }
        return true;
      }
      return false;
    }

    method DeleteConnection(fd: int, setTime: nat) returns (deleted: bool)
      requires Valid()
      modifies this, timer
      ensures Valid() && deleted == (fd in old(connections))
      ensures State() == Deleted(old(State()), fd) && (!deleted ==> State() == old(State()))
      ensures deleted ==> connections == old(connections) - {fd}
    {
      if fd !in connections {
        return false;
      }
      connections := connections - {fd};
      if useTimer && fd in timersMapping {
        var found := timer.RemoveSingleTimer(timersMapping[fd], setTime);
        timersMapping := timersMapping - {fd};
      }
      return true;
    }
  }
}
