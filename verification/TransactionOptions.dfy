/**
 The transaction options (src/MQIOpts.cpp:308-329, 377-412, 441-449, 501-508) and
 the commit-count check of the put/get pair workloads (src/PutGet.cpp:47-48,
 src/Requester.cpp:54-55, src/ReconnectTimer.cpp:56-57).
 */
module TransactionOptions {

  datatype Option<T> = None | Some(value: T)

  /** Which kind of workload is being configured. */
  datatype Workload = PutGetPair | Reconnector | OtherPutterGetter | OneWay

  /** The command line and its defaults; txp and txg may be missing from both. */
  datatype Given = Given(tx: bool, cc: nat, txp: Option<bool>, txg: Option<bool>, txz: bool) {
    /** Looking up a missing option makes the configuration invalid (src/cphConfig.c:276-281, 498). */
    predicate Lacks() {
      txp.None? || txg.None?
    }

    predicate Contradicts() {
      tx && (txp == Some(true) || txg == Some(true))
    }
  }

  datatype Sync = Syncpoint | NoSyncpoint | Unspecified

  class MQIOpts {
    var txSet: bool
    var commitFrequency: nat
    var commitPGPut: bool
    var noSyncOverride: bool
    var put: Sync
    var get: Sync
    /** The mark that stops the program before any worker starts (src/ControlThread.cpp:394-395). */
    var inValid: bool

    constructor ()
      ensures !txSet && !commitPGPut && !noSyncOverride && commitFrequency == 0 && !inValid
    {
      txSet, commitFrequency, commitPGPut, noSyncOverride, inValid := false, 0, false, false, false;
      put, get := Unspecified, Unspecified;
    }

    /**
     The constructor's branches, in order; an error names the offending option and is
     thrown.  A put/get pair goes on to start exactly when both of its options are
     known and they do not contradict tx; its gets are then transactional exactly when
     iterations commit, and its puts exactly when one of tx and txp asks for it.
     */
    method Configure(kind: Workload, g: Given) returns (error: Option<string>)
      requires !txSet && !commitPGPut && !noSyncOverride && !inValid
      modifies this
      ensures error.Some? <==> kind.PutGetPair? && g.Contradicts()
      ensures error.Some? ==> error.value == if g.txp == Some(true) then "txp" else "txg"
      ensures error.None? ==> (inValid <==> kind.PutGetPair? && g.Lacks())
      ensures error.None? ==>
        && txSet == g.tx
        && (put == Syncpoint <==> g.tx || (kind.PutGetPair? && g.txp == Some(true)))
        && commitPGPut == (kind.PutGetPair? && g.txp.Some? && (g.tx || g.txp.value))
        && (get == Syncpoint <==> commitFrequency > 0 || (kind.Reconnector? && g.tx))
        && commitFrequency == (if g.tx then (if kind.Reconnector? then 0 else g.cc)
                               else if kind.PutGetPair? && g.txg == Some(true) then 1 else 0)
        && (put == NoSyncpoint <==> put != Syncpoint && !g.tx && g.txz)
        && (get == NoSyncpoint <==> get != Syncpoint && !g.tx && g.txz)
    {
      if g.tx {
        commitFrequency := g.cc;
        txSet := true;
      } else {
        commitFrequency := 0;
        noSyncOverride := g.txz;
      }
      if kind == PutGetPair {
        if g.txp.Some? {
          if g.txp.value {
            if txSet {
              return Some("txp");
            }
            commitPGPut := true;
          } else if txSet {
            commitPGPut := true;
          }
        } else {
          inValid := true;
        }
        if g.txg.Some? {
          if g.txg.value {
            if txSet {
              return Some("txg");
            }
            commitFrequency := 1;
          }
        } else {
          inValid := true;
        }
      } else if kind == Reconnector && txSet {
        commitFrequency := 0;
      }
      put := if txSet || commitPGPut then Syncpoint else if noSyncOverride then NoSyncpoint else Unspecified;
      get := if kind == Reconnector && txSet then Syncpoint
             else if commitFrequency > 0 then Syncpoint
             else if noSyncOverride then NoSyncpoint else Unspecified;
      return None;
    }

    /** A put/get pair also refuses a commit count above one, and the program refuses an invalid configuration. */
    method ConfigurePair(g: Given) returns (started: bool)
      requires !txSet && !commitPGPut && !noSyncOverride && !inValid
      modifies this
      ensures started <==> Accepted(g)
      ensures started ==> commitFrequency <= 1
      ensures !started ==> g.txp.None? || g.txg.None? || (g.tx && (g.txp.value || g.txg.value || g.cc > 1))
      ensures started ==> Pair() == PairOf(g)
    {
      var error := Configure(PutGetPair, g);
      if error.None? && commitFrequency > 1 {
        error := Some("cc");
      }
      started := error.None? && !inValid;
    }

    function Pair(): PairOptions
      reads this
    {
      PairOptions(put == Syncpoint, commitPGPut, get == Syncpoint, commitFrequency > 0)
    }
  }

  /** How an accepted put/get pair uses transactions. */
  datatype PairOptions = PairOptions(putSync: bool, commitPut: bool, getSync: bool, commitIteration: bool)

  function PairOf(g: Given): PairOptions {
    var commits := (g.tx && g.cc > 0) || (!g.tx && g.txg == Some(true));
    PairOptions(g.tx || g.txp == Some(true), g.txp.Some? && (g.tx || g.txp.value), commits, commits)
  }

  /** What the program starts a put/get pair with. */
  predicate Accepted(g: Given) {
    !g.Lacks() && !g.Contradicts() && (g.tx ==> g.cc <= 1)
  }
}
