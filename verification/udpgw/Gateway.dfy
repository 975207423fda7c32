/** The UDP gateway's connection table (udpgw/udpgw.go:22-56, 92-153, 185-202, 238-257): the
    methods of `UDPGW`, each lock section on its own. */
module Gateway {
  import opened Header
  import opened OptionType

  /** A `UDPConn`: its socket, and what its first request said. The address is the one at creation. */
  datatype Conn = Conn(sock: nat, conid: nat, flags: Byte, ip: seq<Byte>, port: nat)

  /** What `procData` makes of a request without an entry, on a new socket. */
  function NewConn(sock: nat, q: Parsed): Conn
    requires q.Request?
  {
    Conn(sock, q.conid, q.flags, q.ip, q.port)
  }

  type Table = map<nat, Conn>

  /** Each key is its entry's conid, and no two entries share a socket. */
  ghost predicate Keyed(t: Table) {
    && (forall k :: k in t ==> t[k].conid == k)
    && (forall j, k :: j in t && k in t && t[j].sock == t[k].sock ==> j == k)
  }

  /** Every entry's socket is open and has a last-use time. */
  ghost predicate Live(t: Table, open: set<nat>, latest: map<nat, int>) {
    forall k :: k in t ==> t[k].sock in open && t[k].sock in latest
  }

  /** An entry no entry was used before. */
  ghost predicate LeastRecent(t: Table, latest: map<nat, int>, c: Conn)
    requires forall k :: k in t ==> t[k].sock in latest
  {
    c.conid in t && t[c.conid] == c && forall k :: k in t ==> latest[c.sock] <= latest[t[k].sock]
  }

  function SocksOf(t: Table, keys: set<nat>): set<nat> {
    set k | k in keys && k in t :: t[k].sock
  }

  /** The entry `limitConn` drops: a least recently used one of a full table. */
  ghost predicate MakesRoom(t: Table, latest: map<nat, int>, maxConn: int, victim: Option<Conn>)
    requires forall k :: k in t ==> t[k].sock in latest
  {
    if |t| < maxConn || t == map[] then victim == None
    else victim.Some? && LeastRecent(t, latest, victim.value)
  }

  /** The table, the open sockets, and the next socket: what the lock sections do to them. */
  datatype Sockets = Sockets(table: Table, open: set<nat>, next: nat) {

    /** Entries are closed and deleted. */
    function Drop(keys: set<nat>): Sockets {
      this.(table := table - keys, open := open - SocksOf(table, keys))
    }

    function Without(victim: Option<Conn>): Sockets {
      if victim.Some? then Drop({victim.value.conid}) else this
    }

    /** A socket is dialed. */
    function Dial(): Sockets {
      this.(open := open + {next}, next := next + 1)
    }

    /** A connection is recorded. */
    function Insert(c: Conn): Sockets {
      this.(table := table[c.conid := c])
    }

    /** The exit of the reader of `c`, first half: whatever entry has its conid is deleted. */
    function Forget(c: Conn): Sockets {
      this.(table := table - {c.conid})
    }

    /** The second half: its own socket is closed. */
    function CloseSock(c: Conn): Sockets {
      this.(open := open - {c.sock})
    }
  }

  datatype Outcome = Done(n: nat) | BadData | DialFailed | Panicked

  class UDPGW {
    const MaxConn: int
    var connList: Table
    /** The open sockets, the last use of each socket ever made, and the next socket. */
    var open: set<nat>
    var latest: map<nat, int>
    var next: nat

    ghost function Contents(): Sockets
      reads this
    {
      Sockets(connList, open, next)
    }

    ghost predicate Valid()
      reads this
    {
      && Keyed(connList) && Live(connList, open, latest)
      && (forall s :: s in open ==> s < next)
    }

    /** The table's bound: `MaxConn`, but never less than one. */
    ghost predicate Bounded()
      reads this
    {
      |connList| <= if MaxConn >= 1 then MaxConn else 1
    }

    constructor (maxConn: int)
      ensures Valid() && Contents() == Sockets(map[], {}, 0) && MaxConn == maxConn && Bounded()
    {
      MaxConn := maxConn;
      connList, open, latest, next := map[], {}, map[], 0;
    }

    method CloseAllConn()
      requires Valid()
      modifies this`connList, this`open
      ensures Valid() && connList == map[] && Contents() == old(Contents()).Drop(old(connList).Keys)
    {
      DropWhere(connList.Keys);
    }

    /** Closes and deletes the entries of these keys, one by one. */
    method DropWhere(keys: set<nat>)
      requires Valid() && keys <= connList.Keys
      modifies this`connList, this`open
      ensures Valid() && Contents() == old(Contents()).Drop(keys)
    {
      ghost var was := connList;
      var todo := keys;
      while todo != {}
        invariant todo <= keys
        invariant Valid() && connList == was - (keys - todo)
        invariant open == old(open) - SocksOf(was, keys - todo) && next == old(next)
        decreases todo
      {
        var k :| k in todo;
        ghost var t := todo;
        open := open - {connList[k].sock};
        connList := connList - {k};
        todo := todo - {k};
        assert keys - todo == (keys - t) + {k};
      }
    }

    /** `limitConn`: makes room for one more by dropping the least recently used entry of a full table. */
    method LimitConn() returns (ghost victim: Option<Conn>)
      requires Valid()
      modifies this`connList, this`open
      ensures Valid()
      ensures MakesRoom(old(connList), latest, MaxConn, victim) && Contents() == old(Contents()).Without(victim)
      ensures old(Bounded()) ==> |connList| < MaxConn || connList == map[]
      ensures |old(connList)| < MaxConn || old(connList) == map[] ==> connList == old(connList) && open == old(open)
      ensures |old(connList)| >= MaxConn && old(connList) != map[] ==>
                exists k :: k in old(connList) && connList == old(connList) - {k}
                  && open == old(open) - {old(connList)[k].sock}
                  && forall j :: j in old(connList) ==>
                       latest[old(connList)[k].sock] <= latest[old(connList)[j].sock]
    {
      if |connList| < MaxConn || connList == map[] {
        return None;
      }
      var oldest := FindOldest();
      open := open - {oldest.sock};
      connList := connList - {oldest.conid};
      assert |connList| == |old(connList)| - 1 by {
        assert connList.Keys == old(connList).Keys - {oldest.conid};
      }
      return Some(oldest);
    }

    method FindOldest() returns (oldest: Conn)
      requires Valid() && connList != map[]
      ensures LeastRecent(connList, latest, oldest)
    {
      var first :| first in connList;
      oldest := connList[first];
      var todo := connList.Keys - {first};
      while todo != {}
        invariant todo <= connList.Keys
        invariant oldest.conid in connList && connList[oldest.conid] == oldest
        invariant forall k :: k in connList && k !in todo ==> latest[oldest.sock] <= latest[connList[k].sock]
        decreases todo
      {
        var k :| k in todo;
        if latest[oldest.sock] > latest[connList[k].sock] {
          oldest := connList[k];
        }
        todo := todo - {k};
      }
    }

    /** `procTimeout`, on this gateway. */
    method ProcTimeout(now: int, timeout: int)
      requires Valid()
      modifies this`connList, this`open
      ensures Valid()
      ensures var late := set k | k in old(connList) && now - latest[old(connList)[k].sock] > timeout;
              Contents() == old(Contents()).Drop(late)
      ensures connList == map k | k in old(connList) && now - latest[old(connList)[k].sock] <= timeout
                            :: old(connList)[k]
      ensures forall s :: s in open <==>
                s in old(open) && forall k :: k in old(connList) && old(connList)[k].sock == s ==> k in connList
    {
      DropWhere(set k | k in connList && now - latest[connList[k].sock] > timeout);
    }

    /** `procData`: the answer to one packet, as it goes when nothing else runs. `dialOk` and `written`
        are what the network does. A packet fully written is reported with its whole length. */
    method ProcData(p: seq<Byte>, now: int, dialOk: bool, written: nat) returns (r: Outcome)
      requires Valid() && Bounded()
      modifies this
      ensures Valid() && Bounded()
      ensures var q := Parse(p);
              && (q.DataError? <==> r == BadData)
              && (q.Panics? <==> r == Panicked)
              && (q.KeepAlive? ==> r == Done(|p|))
              && (!q.Request? ==> Contents() == old(Contents()) && latest == old(latest))
      ensures var q := Parse(p);
              q.Request? && q.conid in old(connList) ==>
                && r.Done? && Contents() == old(Contents())
                && latest == old(latest)[connList[q.conid].sock := now]
      ensures var q := Parse(p);
              q.Request? && q.conid !in old(connList) ==>
                && (r.Done? <==> dialOk) && (r == DialFailed <==> !dialOk)
                && latest == (if dialOk then old(latest)[old(next) := now] else old(latest))
                && exists victim :: MakesRoom(old(connList), old(latest), MaxConn, victim)
                     && var room := old(Contents()).Without(victim);
                        Contents() == if dialOk then room.Dial().Insert(NewConn(old(next), q)) else room
      ensures var q := Parse(p);
              q.Request? && q.conid !in old(connList) && dialOk ==>
                && q.conid in connList && connList[q.conid].sock == old(next) && connList[q.conid].conid == q.conid
                && connList[q.conid].flags == p[0] && connList[q.conid].ip == q.ip && connList[q.conid].port == q.port
      ensures r.Done? && Parse(p).Request? ==>
                r.n == written + |Parse(p).ip| + 5 && (written == |Parse(p).data| ==> r.n == |p|)
    {
      match Parse(p)
      case DataError => return BadData;
      case KeepAlive => return Done(|p|);
      case Panics => return Panicked;
      case Request(flags, conid, ip, port, data) =>
        ParsedIsInRange(p);
        if conid in connList {
          latest := latest[connList[conid].sock := now];
        } else {
          var connected := Connect(NewConn(next, Parse(p)), now, dialOk);
          if !connected {
            return DialFailed;
          }
        }
        return Done(written + |ip| + 5);
    }

    /** The branch for a conid without an entry. */
    method Connect(c: Conn, now: int, dialOk: bool) returns (ok: bool)
      requires Valid() && Bounded() && c.conid !in connList && c.sock == next
      modifies this
      ensures Valid() && Bounded() && ok == dialOk
      ensures latest == if dialOk then old(latest)[c.sock := now] else old(latest)
      ensures exists victim :: MakesRoom(old(connList), old(latest), MaxConn, victim)
                && var room := old(Contents()).Without(victim);
                   Contents() == if dialOk then room.Dial().Insert(c) else room
    {
      hide LeastRecent, Keyed, Live;
      ghost var victim := LimitConn();
      if !dialOk {
        return false;
      }
      OpenSocket(now);
      Insert(c);
      return true;
    }

    /** A dialed socket, used now. */
    method OpenSocket(now: int)
      requires Valid()
      modifies this`open, this`latest, this`next
      ensures Valid() && Contents() == old(Contents()).Dial() && latest == old(latest)[old(next) := now]
      ensures forall k :: k in connList ==> connList[k].sock != old(next)
    {
      open, latest, next := open + {next}, latest[next := now], next + 1;
    }

    /** Recording a new connection whose conid has no entry. */
    method Insert(c: Conn)
      requires Valid() && c.conid !in connList && c.sock in open && c.sock in latest
      requires forall k :: k in connList ==> connList[k].sock != c.sock
      modifies this`connList
      ensures Valid() && Contents() == old(Contents()).Insert(c) && |connList| == |old(connList)| + 1
    {
      connList := connList[c.conid := c];
    }

    /** The first half of a `procRead` exit: whatever entry has its conid is deleted... */
    method ReaderDeletes(c: Conn)
      requires Valid()
      modifies this`connList
      ensures Valid() && Contents() == old(Contents()).Forget(c)
      ensures forall k :: k in connList ==> connList[k] != c
    {
      connList := connList - {c.conid};
    }

    /** ... and then its own socket is closed. */
    method ReaderCloses(c: Conn)
      requires Valid() && forall k :: k in connList ==> connList[k].sock != c.sock
      modifies this`open
      ensures Valid() && Contents() == old(Contents()).CloseSock(c)
    {
      open := open - {c.sock};
    }
  }
}
