/** The live sessions of the master, by hostname. The epoch of a session is reserved before the map is
    locked, so two streams of one host may enter the map in either order. */
module Sessions {
  import opened Lifecycle

  type Epoch = nat

  /** What happens to the map: a stream enters it, or a closing stream asks to leave. */
  datatype Change = Enter(host: string, epoch: Epoch) | Leave(host: string, epoch: Epoch)

  type Current = map<string, Epoch>

  function Apply(current: Current, change: Change): Current {
    match change
    case Enter(host, epoch) => current[host := epoch]
    case Leave(host, epoch) => if host in current && current[host] == epoch then current - {host} else current
  }

  function Replay(changes: seq<Change>): Current {
    if changes == [] then map[] else Apply(Replay(changes[..|changes| - 1]), changes[|changes| - 1])
  }

  class SessionMap {
    var inner: Current
    var epochs: nat
    /** Everything that happened to the map so far. */
    ghost var history: seq<Change>

    ghost predicate Valid()
      reads this
    {
      && inner == Replay(history)
      && (forall k :: 0 <= k < |history| && history[k].Enter? ==> history[k].epoch < epochs)
    }

    constructor ()
      ensures Valid() && history == [] && epochs == 0
    {
      inner, epochs, history := map[], 0, [];
    }

    /** The first half of an insertion: no two streams get the same epoch. */
    method Reserve() returns (epoch: Epoch)
      requires Valid()
      modifies this`epochs
      ensures Valid() && epoch == old(epochs) && epochs == epoch + 1
      ensures forall k :: 0 <= k < |history| && history[k].Enter? ==> history[k].epoch != epoch
    {
      epoch := epochs;
      epochs := epochs + 1;
    }

    /** The second half, under the lock: the newest stream to get here wins. */
    method Enter(host: string, epoch: Epoch)
      requires Valid() && epoch < epochs
      modifies this`inner, this`history
      ensures Valid() && history == old(history) + [Change.Enter(host, epoch)]
    {
      inner := inner[host := epoch];
      history := history + [Change.Enter(host, epoch)];
    }

    method RemoveIfCurrent(host: string, epoch: Epoch)
      requires Valid()
      modifies this`inner, this`history
      ensures Valid() && history == old(history) + [Leave(host, epoch)]
    {
      if host in inner && inner[host] == epoch {
        inner := inner - {host};
      }
      history := history + [Leave(host, epoch)];
    }

    method IsConnected(host: string) returns (connected: bool)
      requires Valid()
      ensures connected == (host in Replay(history))
    {
      connected := host in inner;
    }
  }

  // ----- Who is connected -----

  /** `change` ends the stay of the stream that entered for `host` with `epoch`. */
  predicate Ends(change: Change, host: string, epoch: Epoch) {
    (change.Enter? && change.host == host) || change == Leave(host, epoch)
  }

  /** The last stream of `host` to enter the map did so at `k`, and has not asked to leave since. */
  predicate LastAndStaying(changes: seq<Change>, host: string, k: int) {
    && 0 <= k < |changes| && changes[k].Enter? && changes[k].host == host
    && forall j :: k < j < |changes| ==> !Ends(changes[j], host, changes[k].epoch)
  }

  lemma OneMoreChange(changes: seq<Change>, host: string, k: int)
    requires changes != [] && 0 <= k < |changes| - 1
    ensures var before, change := changes[..|changes| - 1], changes[|changes| - 1];
            LastAndStaying(changes, host, k) <==>
            LastAndStaying(before, host, k) && !Ends(change, host, changes[k].epoch)
  {
    var last := |changes| - 1;
    assert forall j :: 0 <= j < last ==> changes[..last][j] == changes[j];
  }

  /** A host is connected exactly when its last stream to enter the map has not left, and then that
      stream is the current one. */
  lemma {:induction false} ConnectedIff(changes: seq<Change>, host: string)
    ensures host in Replay(changes) <==> exists k :: LastAndStaying(changes, host, k)
    ensures forall k :: LastAndStaying(changes, host, k) ==>
                          host in Replay(changes) && Replay(changes)[host] == changes[k].epoch
  {
    if changes != [] {
      var last := |changes| - 1;
      var before, change := changes[..last], changes[last];
      ConnectedIff(before, host);
      forall k | 0 <= k < last
        ensures LastAndStaying(changes, host, k) <==>
                LastAndStaying(before, host, k) && !Ends(change, host, changes[k].epoch)
      {
        OneMoreChange(changes, host, k);
      }
      if change.Enter? && change.host == host {
        assert LastAndStaying(changes, host, last);
      } else if host in Replay(before) {
        var k :| LastAndStaying(before, host, k);
        assert before[k] == changes[k];
        assert change != Leave(host, changes[k].epoch) ==> LastAndStaying(changes, host, k);
      }
    }
  }

  /** A superseded stream that closes late evicts nobody. */
  lemma LateCloseEvictsNobody(changes: seq<Change>, host: string, stale: Epoch)
    requires host in Replay(changes) && Replay(changes)[host] != stale
    ensures Replay(changes + [Leave(host, stale)]) == Replay(changes)
  {
    assert (changes + [Leave(host, stale)])[..|changes|] == changes;
  }

  /** The current epoch need not be the latest one reserved: the newer stream may enter first. */
  lemma LatestEpochMayLose()
    ensures Replay([Change.Enter("web-01", 1), Change.Enter("web-01", 0)])["web-01"] == 0
  {
    var changes := [Change.Enter("web-01", 1), Change.Enter("web-01", 0)];
    assert changes[..1] == [Change.Enter("web-01", 1)];
    assert changes[..1][..0] == [];
  }
}
