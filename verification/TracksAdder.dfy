/**
 The tracks a client sends, kept in step over all its connections.

 Everything is an object here, as in the source: connections and adders are shared, and told apart by identity. The
 native part of a connection may refuse any request to add or to remove a track. A failed assertion sets `failed` of
 the connection it is in; execution goes on as in a release build.
 */
module TracksAdder {
  import opened Prelude
  import opened Lists

  type Track = nat

  /** `sending_tracks` of an `rtc::google::connection`. */
  class RtcConnection {
    const answers: nat -> bool           // what the native part says to each request
    var asked: nat                       // how many there were
    var sending: seq<Track>
    var failed: bool

    constructor (answers: nat -> bool)
      ensures this.answers == answers && sending == [] && !failed && asked == 0
    {
      this.answers, asked, sending, failed := answers, 0, [], false;
    }

    /** It has said no to some request. */
    predicate Refused()
      reads this
    {
      exists n :: 0 <= n < asked && !answers(n)
    }

    method FindSending(track: Track) returns (i: nat)
      ensures i == Find(sending, track)
    {
      i := 0;
      while i < |sending| && sending[i] != track
        invariant i <= |sending| && forall k :: 0 <= k < i ==> sending[k] != track
      {
        i := i + 1;
      }
    }

    method AskNative() returns (ok: bool)
      modifies this`asked
      ensures ok == answers(old(asked)) && asked == old(asked) + 1 && Refused() == (old(Refused()) || !ok)
    {
      ok := answers(asked);
      asked := asked + 1;
    }

    method AddTrack(track: Track)
      modifies this
      ensures var ok := answers(old(asked));
        && asked == old(asked) + 1 && Refused() == (old(Refused()) || !ok)
        && sending == (if ok then old(sending) + [track] else old(sending))
        && failed == (old(failed) || track in old(sending) || !ok)
    {
      var found := FindSending(track);
      if found != |sending| { failed := true; }
      var ok := AskNative();
      if !ok {
        failed := true;
        return;
      }
      sending := sending + [track];
    }

    method RemoveTrack(track: Track)
      modifies this
      ensures track !in old(sending) ==> failed && sending == old(sending) && asked == old(asked)
      ensures track in old(sending) ==>
        var ok := answers(old(asked));
        && asked == old(asked) + 1 && Refused() == (old(Refused()) || !ok) && failed == (old(failed) || !ok)
        && sending == Without(old(sending), track)
    {
      var found := FindSending(track);
      if found == |sending| {
        failed := true;
        return;
      }
      var ok := AskNative();
      if !ok { failed := true; }
      sending := sending[..found] + sending[found + 1..];
    }
  }

  /** Those of some tracks that are among others. */
  function Only(tracks: seq<Track>, others: seq<Track>): seq<Track> {
    if tracks == [] then []
    else (if tracks[0] in others then [tracks[0]] else []) + Only(tracks[1..], others)
  }

  /** A connection sends some of the tracks there are, in their order: all of them unless its native part refused
      something, and exactly then has an assertion failed. */
  ghost predicate Sends(connection: RtcConnection, tracks: seq<Track>)
    reads connection
  {
    && connection.sending == Only(tracks, connection.sending)
    && (!connection.Refused() ==> connection.sending == tracks)
    && connection.failed == connection.Refused()
  }

  /** The requests made so far and one for each track that is still there to be taken off. */
  function Requests(connection: RtcConnection): nat
    reads connection
  {
    connection.asked + |connection.sending|
  }

  lemma {:induction false} OnlyConcat(a: seq<Track>, b: seq<Track>, others: seq<Track>)
    ensures Only(a + b, others) == Only(a, others) + Only(b, others)
  {
    if a == [] {
      assert a + b == b;
    } else {
      assert (a + b)[0] == a[0] && (a + b)[1..] == a[1..] + b;
      OnlyConcat(a[1..], b, others);
      Associates(if a[0] in others then [a[0]] else [], Only(a[1..], others), Only(b, others));
    }
  }

  lemma {:induction false} OnlyAgrees(tracks: seq<Track>, a: seq<Track>, b: seq<Track>)
    requires forall t <- tracks :: t in a <==> t in b
    ensures Only(tracks, a) == Only(tracks, b)
    ensures forall t <- Only(tracks, a) :: t in tracks
  {
    if tracks != [] { OnlyAgrees(tracks[1..], a, b); }
  }

  lemma OnlyOne(t: Track, others: seq<Track>)
    ensures Only([t], others) == if t in others then [t] else []
  {
    assert Only([t][1..], others) == [];
  }

  /** One more track, taken or not. */
  lemma OnlyMore(tracks: seq<Track>, sending: seq<Track>, t: Track)
    requires sending == Only(tracks, sending) && t !in tracks
    ensures t !in sending && sending == Only(tracks + [t], sending)
    ensures sending + [t] == Only(tracks + [t], sending + [t])
  {
    OnlyAgrees(tracks, sending, sending);
    OnlyConcat(tracks, [t], sending);
    OnlyOne(t, sending);
    OnlyAgrees(tracks, sending, sending + [t]);
    OnlyConcat(tracks, [t], sending + [t]);
    OnlyOne(t, sending + [t]);
  }

  /** One track less. */
  lemma OnlyLess(a: seq<Track>, t: Track, b: seq<Track>, sending: seq<Track>)
    requires sending == Only(a + [t] + b, sending) && t !in a && t !in b
    ensures Without(sending, t) == Only(a + b, Without(sending, t))
  {
    var x, y := Only(a, sending), Only(b, sending);
    OnlyConcat(a + [t], b, sending);
    OnlyConcat(a, [t], sending);
    OnlyConcat(a, b, sending);
    OnlyOne(t, sending);
    OnlyAgrees(a, sending, sending);
    OnlyAgrees(b, sending, sending);
    assert x + y == Without(sending, t) by { LessOne(x, t, y, sending); }
    forall u | u in a || u in b ensures u in sending <==> u in x + y { assert u != t; }
    OnlyAgrees(a, sending, x + y);
    OnlyAgrees(b, sending, x + y);
    OnlyConcat(a, b, x + y);
  }

  lemma LessOne(x: seq<Track>, t: Track, y: seq<Track>, sending: seq<Track>)
    requires t !in x && t !in y && sending == x + (if t in sending then [t] else []) + y
    ensures Without(sending, t) == x + y
  {
    if t in sending {
      WithoutLast(x, t);
      assert (x + [t])[|x|] == t;
      WithoutInFront(x + [t], y, t);
    } else {
      assert Find(sending, t) == |sending|;
    }
  }

  /** A `track_adder`: sends one track, or none at all (the silent audio adder, the data channel's adder). */
  class Adder {
    const track: Option<Track>

    constructor (track: Option<Track>)
      ensures this.track == track
    {
      this.track := track;
    }

    method AddToConnection(connection: RtcConnection, ghost tracks: seq<Track>)
      requires Sends(connection, tracks) && (track.Some? ==> track.value !in tracks)
      modifies connection
      ensures Sends(connection, tracks + TrackOf(this)) && connection.asked == old(connection.asked) + |TrackOf(this)|
    {
      if track.None? {
        assert tracks + TrackOf(this) == tracks;
        return;
      }
      OnlyMore(tracks, connection.sending, track.value);
      assert TrackOf(this) == [track.value];
      connection.AddTrack(track.value);
    }

    /** `rest` are the tracks there are without this one's. */
    method RemoveFromConnection(connection: RtcConnection, ghost tracks: seq<Track>, ghost rest: seq<Track>)
      requires Sends(connection, tracks)
      requires track.Some? ==> Distinct(tracks) && track.value in tracks && rest == Without(tracks, track.value)
      requires track.None? ==> rest == tracks
      modifies connection
      ensures Sends(connection, rest) && Requests(connection) == old(Requests(connection))
    {
      if track.None? { return; }
      OnlyWithout(tracks, connection.sending, track.value);
      connection.RemoveTrack(track.value);
    }
  }

  lemma OnlyWithout(tracks: seq<Track>, sending: seq<Track>, t: Track)
    requires Distinct(tracks) && t in tracks && sending == Only(tracks, sending)
    ensures Without(sending, t) == Only(Without(tracks, t), Without(sending, t))
    ensures t !in sending ==> sending != tracks && Without(sending, t) == sending
  {
    var i := Find(tracks, t);
    var a, b := tracks[..i], tracks[i + 1..];
    assert tracks == a + [t] + b;
    OnlyLess(a, t, b, sending);
  }

  function TrackOf(adder: Adder): seq<Track> {
    if adder.track.Some? then [adder.track.value] else []
  }

  /** The adders' tracks, in their order. */
  function Tracks(adders: seq<Adder>): seq<Track> {
    if adders == [] then [] else TrackOf(adders[0]) + Tracks(adders[1..])
  }

  lemma {:induction false} TracksConcat(a: seq<Adder>, b: seq<Adder>)
    ensures Tracks(a + b) == Tracks(a) + Tracks(b)
  {
    if a == [] {
      assert a + b == b;
    } else {
      assert (a + b)[0] == a[0] && (a + b)[1..] == a[1..] + b;
      TracksConcat(a[1..], b);
    }
  }

  lemma TracksAppend(a: seq<Adder>, adder: Adder)
    ensures Tracks(a + [adder]) == Tracks(a) + TrackOf(adder)
  {
    TracksConcat(a, [adder]);
    assert [adder][1..] == [];
  }

  lemma DistinctParts<T>(a: seq<T>, b: seq<T>)
    requires Distinct(a + b)
    ensures Distinct(a) && Distinct(b) && forall x :: x in a ==> x !in b
  {
    var c := a + b;
    assert forall k :: 0 <= k < |a| ==> c[k] == a[k];
    assert forall k :: 0 <= k < |b| ==> c[|a| + k] == b[k];
  }

  /** Removing an adder's track leaves the others' tracks. */
  lemma TracksWithout(adders: seq<Adder>, i: nat)
    requires i < |adders| && Distinct(Tracks(adders))
    ensures var rest, track := adders[..i] + adders[i + 1..], adders[i].track;
      && Distinct(Tracks(rest))
      && (track.None? ==> Tracks(rest) == Tracks(adders))
      && (track.Some? ==> track.value in Tracks(adders) && Tracks(rest) == Without(Tracks(adders), track.value))
  {
    var a, b, adder := adders[..i], adders[i + 1..], adders[i];
    var rest := a + b;
    assert adders == (a + [adder]) + b;
    TracksConcat(a + [adder], b);
    TracksAppend(a, adder);
    TracksConcat(a, b);
    if adder.track.None? {
      assert Tracks(rest) == Tracks(a) + Tracks(b) == Tracks(adders);
    } else {
      var x := adder.track.value;
      assert Tracks(adders) == Tracks(a) + ([x] + Tracks(b));
      DistinctParts(Tracks(a), [x] + Tracks(b));
      assert x in [x] + Tracks(b);
      WithoutInFront(Tracks(a) + [x], Tracks(b), x);
      WithoutLast(Tracks(a), x);
      assert (Tracks(a) + [x])[|Tracks(a)|] == x;
      assert Tracks(adders) == (Tracks(a) + [x]) + Tracks(b);
      WithoutDistinct(Tracks(adders), x);
    }
  }

  lemma TracksUpTo(adders: seq<Adder>, i: nat)
    requires i < |adders|
    ensures Tracks(adders[..i + 1]) == Tracks(adders[..i]) + TrackOf(adders[i])
    ensures Tracks(adders) == Tracks(adders[..i]) + (TrackOf(adders[i]) + Tracks(adders[i + 1..]))
  {
    Parts(adders, i);
    TracksOfParts(adders[..i], adders[i], adders[i + 1..]);
  }

  lemma Parts<T>(list: seq<T>, i: nat)
    requires i < |list|
    ensures list[..i + 1] == list[..i] + [list[i]] && list == (list[..i] + [list[i]]) + list[i + 1..]
  {
  }

  lemma TracksOfParts(front: seq<Adder>, adder: Adder, rest: seq<Adder>)
    ensures Tracks(front + [adder]) == Tracks(front) + TrackOf(adder)
    ensures Tracks((front + [adder]) + rest) == Tracks(front) + (TrackOf(adder) + Tracks(rest))
  {
    TracksAppend(front, adder);
    TracksConcat(front + [adder], rest);
    Associates(Tracks(front), TrackOf(adder), Tracks(rest));
  }

  lemma Associates<T>(a: seq<T>, b: seq<T>, c: seq<T>)
    ensures (a + b) + c == a + (b + c)
  {
  }

  lemma TracksBefore(adders: seq<Adder>, i: nat)
    requires i < |adders| && Distinct(Tracks(adders))
    ensures Tracks(adders[..i + 1]) == Tracks(adders[..i]) + TrackOf(adders[i])
    ensures adders[i].track.Some? ==> adders[i].track.value !in Tracks(adders[..i])
  {
    TracksUpTo(adders, i);
    var later := TrackOf(adders[i]) + Tracks(adders[i + 1..]);
    DistinctParts(Tracks(adders[..i]), later);
    if adders[i].track.Some? { assert later[0] == adders[i].track.value; }
  }

  lemma TracksFrom(adders: seq<Adder>, i: nat)
    requires i < |adders| && Distinct(Tracks(adders))
    ensures adders[i].track.None? ==> Tracks(adders[i + 1..]) == Tracks(adders[i..])
    ensures adders[i].track.Some? ==>
      var track := adders[i].track.value;
      && Distinct(Tracks(adders[i..])) && track in Tracks(adders[i..])
      && Tracks(adders[i + 1..]) == Without(Tracks(adders[i..]), track)
  {
    assert adders == adders[..i] + adders[i..];
    TracksConcat(adders[..i], adders[i..]);
    DistinctParts(Tracks(adders[..i]), Tracks(adders[i..]));
    TracksWithout(adders[i..], 0);
    assert adders[i..][..0] + adders[i..][1..] == adders[i + 1..];
  }

  /** An adder is called for each of some connections. */
  method AddToAll(adder: Adder, connections: seq<RtcConnection>, ghost tracks: seq<Track>)
    requires Distinct(connections) && forall c <- connections :: Sends(c, tracks)
    requires adder.track.Some? ==> adder.track.value !in tracks
    modifies connections
    ensures forall c <- connections ::
      Sends(c, tracks + TrackOf(adder)) && c.asked == old(c.asked) + |TrackOf(adder)|
  {
    for i := 0 to |connections|
      invariant forall k :: 0 <= k < i ==> Sends(connections[k], tracks + TrackOf(adder))
      invariant forall k :: i <= k < |connections| ==> Sends(connections[k], tracks)
      invariant forall k :: 0 <= k < i ==> connections[k].asked == old(connections[k].asked) + |TrackOf(adder)|
      invariant forall k :: i <= k < |connections| ==> connections[k].asked == old(connections[k].asked)
    {
      adder.AddToConnection(connections[i], tracks);
    }
  }

  method RemoveFromAll(adder: Adder, connections: seq<RtcConnection>, ghost tracks: seq<Track>, ghost rest: seq<Track>)
    requires Distinct(connections) && forall c <- connections :: Sends(c, tracks)
    requires adder.track.Some? ==>
      Distinct(tracks) && adder.track.value in tracks && rest == Without(tracks, adder.track.value)
    requires adder.track.None? ==> rest == tracks
    modifies connections
    ensures forall c <- connections :: Sends(c, rest) && Requests(c) == old(Requests(c))
  {
    for i := 0 to |connections|
      invariant forall k :: 0 <= k < i ==> Sends(connections[k], rest)
      invariant forall k :: i <= k < |connections| ==> Sends(connections[k], tracks)
      invariant forall k :: 0 <= k < |connections| ==> Requests(connections[k]) == old(Requests(connections[k]))
    {
      adder.RemoveFromConnection(connections[i], tracks, rest);
    }
  }

  // ---------------------------------------------------------------- all connections at once

  class Adders {
    var adders: seq<Adder>
    var connections: seq<RtcConnection>

    /** Every connection sends the adders' tracks, in their order, but for what its native part refused. */
    ghost predicate Valid()
      reads this, connections
    {
      && Distinct(adders) && Distinct(connections) && Distinct(Tracks(adders))
      && forall c <- connections :: Sends(c, Tracks(adders))
    }

    constructor ()
      ensures Valid() && adders == [] && connections == []
    {
      adders, connections := [], [];
    }

    method Add(adder: Adder)
      requires Valid() && adder !in adders && (adder.track.Some? ==> adder.track.value !in Tracks(adders))
      modifies this`adders, connections
      ensures Valid() && adders == old(adders) + [adder]
      ensures forall c <- connections :: c.asked == old(c.asked) + |TrackOf(adder)|
    {
      AddToAll(adder, connections, Tracks(adders));
      TracksAppend(adders, adder);
      adders := adders + [adder];
    }

    method Remove(adder: Adder)
      requires Valid() && adder in adders
      modifies this`adders, connections
      ensures Valid() && adders == Without(old(adders), adder)
      ensures forall c <- connections :: Requests(c) == old(Requests(c))
    {
      var found := Find(adders, adder);
      TracksWithout(adders, found);
      RemoveFromAll(adder, connections, Tracks(adders), Tracks(adders[..found] + adders[found + 1..]));
      WithoutDistinct(adders, adder);
      adders := adders[..found] + adders[found + 1..];
    }

    /** A new connection sends every track there is. */
    method AddConnection(connection: RtcConnection)
      requires Valid() && connection !in connections
      requires connection.sending == [] && connection.failed == connection.Refused()
      modifies this`connections, connection
      ensures Valid() && connections == old(connections) + [connection]
      ensures connection.asked == old(connection.asked) + |Tracks(adders)|
    {
      connections := connections + [connection];
      for i := 0 to |adders|
        modifies connection
        invariant Sends(connection, Tracks(adders[..i]))
        invariant connection.asked == old(connection.asked) + |Tracks(adders[..i])|
      {
        TracksBefore(adders, i);
        adders[i].AddToConnection(connection, Tracks(adders[..i]));
      }
      assert adders[..|adders|] == adders;
    }

    /** A connection that is removed sends nothing any more. */
    method RemoveConnection(connection: RtcConnection)
      requires Valid() && connection in connections
      modifies this`connections, connection
      ensures Valid() && connections == Without(old(connections), connection)
      ensures connection.sending == [] && connection.failed == connection.Refused()
      ensures connection.asked == old(Requests(connection))
    {
      var found := Find(connections, connection);
      RemoveTracks(connection);
      WithoutDistinct(connections, connection);
      connections := connections[..found] + connections[found + 1..];
    }

    /** Every adder is called for one connection. */
    method RemoveTracks(connection: RtcConnection)
      requires Distinct(Tracks(adders)) && Sends(connection, Tracks(adders))
      modifies connection
      ensures connection.sending == [] && connection.failed == connection.Refused()
      ensures connection.asked == old(Requests(connection))
    {
      for i := 0 to |adders|
        modifies connection
        invariant Sends(connection, Tracks(adders[i..])) && Requests(connection) == old(Requests(connection))
      {
        TracksBefore(adders, i);
        TracksFrom(adders, i);
        adders[i].RemoveFromConnection(connection, Tracks(adders[i..]), Tracks(adders[i + 1..]));
      }
      assert adders[|adders|..] == [];
    }
  }
}
