/** When the master takes a server for dead: the time of its last sign of life against the time-out. */
module GfsLiveness {
  import opened M = GfsMetadata
  import opened GfsEffects

  /** Three missed heartbeats of one second, in nanoseconds. */
  const TIMEOUT: nat := 3 * 1_000_000_000

  /** The metadata, and when each server last registered or sent a heartbeat. */
  datatype Watch = Watch(master: Metadata, lastSeen: map<ServerId, nat>)

  /** What the master handles, with the time where it looks at the clock. */
  datatype Event =
    | Registers(now: nat)
    | Beats(server: ServerId, held: seq<ChunkId>, now: nat)
    | Ticks(now: nat)
    | Allocates(path: Path, len: nat, chunkSize: nat)
    | Deletes(path: Path)

  function Late(lastSeen: map<ServerId, nat>, now: nat): set<ServerId> {
    set id | id in lastSeen && now >= lastSeen[id] + TIMEOUT
  }

  function Next(w: Watch, e: Event): Watch {
    match e
    case Registers(now) => Watch(Register(w.master), w.lastSeen[w.master.nextServer := now])
    case Beats(server, held, now) =>
      Watch(Heartbeat(w.master, server, held),
            if server in w.lastSeen then w.lastSeen[server := now] else w.lastSeen)
    case Ticks(now) => w.(master := Timeout(w.master, Late(w.lastSeen, now)))
    case Allocates(path, len, chunkSize) => w.(master := Allocate(w.master, path, len, chunkSize))
    case Deletes(path) => w.(master := Delete(w.master, path))
  }

  function Run(w: Watch, events: seq<Event>): Watch
    decreases |events|
  {
    if events == [] then w else Run(Next(w, events[0]), events[1..])
  }

  ghost predicate WatchInv(w: Watch) {
    M.Inv(w.master) && w.lastSeen.Keys == w.master.online.Keys
  }

  lemma NextKeepsInv(w: Watch, e: Event)
    requires WatchInv(w)
    ensures WatchInv(Next(w, e))
  {
    match e
    case Registers(_) => ServersKeepInv(w.master, {});
    case Beats(server, held, _) => HeartbeatKeepsInv(w.master, server, held);
    case Ticks(now) => ServersKeepInv(w.master, Late(w.lastSeen, now));
    case Allocates(path, len, chunkSize) => AllocateKeepsInv(w.master, path, len, chunkSize);
    case Deletes(path) => DeleteKeepsInv(w.master, path);
  }

  /** The server registers, or a registered one sends a heartbeat, at that time. */
  predicate IsSign(w: Watch, e: Event, id: ServerId, now: nat) {
    || (e == Registers(now) && w.master.nextServer == id)
    || (e.Beats? && e.server == id && e.now == now && id in w.master.online)
  }

  /** A server that was just heard of is online, whatever it was before. */
  lemma SignSeen(w: Watch, e: Event, id: ServerId, now: nat)
    requires WatchInv(w) && IsSign(w, e, id, now)
    ensures var w' := Next(w, e);
      IsOnline(w'.master, id) && id in w'.lastSeen && w'.lastSeen[id] == now
  {}

  /** An event that is no sign of the server leaves it as it was, unless it is a tick that finds it late. */
  lemma NoSign(w: Watch, e: Event, id: ServerId)
    requires WatchInv(w) && id in w.lastSeen && !(e.Beats? && e.server == id)
    ensures var w' := Next(w, e);
      && id in w'.lastSeen && w'.lastSeen[id] == w.lastSeen[id]
      && (var late := e.Ticks? && e.now >= w.lastSeen[id] + 3_000_000_000;
          IsOnline(w'.master, id) <==> IsOnline(w.master, id) && !late)
  {
    assert id < w.master.nextServer;
  }

  lemma {:induction false} OnlineWhileSilent(w: Watch, events: seq<Event>, id: ServerId)
    requires WatchInv(w) && IsOnline(w.master, id)
    requires forall i :: 0 <= i < |events| ==> !(events[i].Beats? && events[i].server == id)
    ensures IsOnline(Run(w, events).master, id)
       <==> forall i :: 0 <= i < |events| && events[i].Ticks? ==> events[i].now < w.lastSeen[id] + 3_000_000_000
    decreases |events|
  {
    if events != [] {
      var e, rest, w' := events[0], events[1..], Next(w, events[0]);
      NextKeepsInv(w, e);
      NoSign(w, e, id);
      if IsOnline(w'.master, id) {
        OnlineWhileSilent(w', rest, id);
        assert forall i :: 0 < i < |events| ==> events[i] == rest[i - 1];
      } else {
        StaysOffline(w', rest, id);
      }
    }
  }

  lemma {:induction false} StaysOffline(w: Watch, events: seq<Event>, id: ServerId)
    requires WatchInv(w) && id in w.lastSeen && !IsOnline(w.master, id)
    requires forall i :: 0 <= i < |events| ==> !(events[i].Beats? && events[i].server == id)
    ensures !IsOnline(Run(w, events).master, id)
    decreases |events|
  {
    if events != [] {
      NextKeepsInv(w, events[0]);
      NoSign(w, events[0], id);
      StaysOffline(Next(w, events[0]), events[1..], id);
    }
  }

  /**
   Whatever else happens after its last sign of life, a server is online exactly until a tick that
   comes three seconds or more after that sign.
   */
  lemma OnlineExactly(w: Watch, sign: Event, now: nat, events: seq<Event>, id: ServerId)
    requires WatchInv(w) && IsSign(w, sign, id, now)
    requires forall i :: 0 <= i < |events| ==> !(events[i].Beats? && events[i].server == id)
    ensures IsOnline(Run(Next(w, sign), events).master, id)
       <==> forall i :: 0 <= i < |events| && events[i].Ticks? ==> events[i].now < now + 3_000_000_000
  {
    NextKeepsInv(w, sign);
    SignSeen(w, sign, id, now);
    OnlineWhileSilent(Next(w, sign), events, id);
  }
}
