/** The world that the manager runs in: the live database files, the clock, the random source. */
module Live {
  import opened Wrappers
  import opened Wal
  import opened Replay
  import opened Config
  import opened Pipeline
  import opened Keys
  import opened History

  /** A database in use by an application. */
  class LiveDatabase {
    const cfg: BackupConfig
    /** The database file's bytes. */
    var file: Bytes
    /** All WAL epochs; the last one holds the bytes of the WAL file as it is now. */
    var epochs: seq<Epoch>
    /** How many frames of the current WAL are already in the database file. */
    var backfilled: nat
    /** The WAL file exists. */
    var walExists: bool

    predicate Valid()
      reads this
    {
      && epochs != [] && SaltsDistinct(epochs) && Chained(epochs)
      && FileShows(cfg, file, epochs[|epochs| - 1], backfilled) && EpochGrows(epochs[|epochs| - 1], Wal())
      && (forall i :: 0 <= i < |epochs| ==> CarriesCuts(cfg, epochs[i].wal))
      && Carries(cfg, file)
      && (!walExists ==> Wal() == [])
    }

    /** A database file without a WAL. */
    constructor (cfg: BackupConfig, file: Bytes)
      requires Carries(cfg, file)
      ensures Valid() && this.cfg == cfg && this.file == file && epochs == [Epoch(cfg.formats.pager(file), [])]
    {
      this.cfg, this.file := cfg, file;
      epochs, backfilled, walExists := [Epoch(cfg.formats.pager(file), [])], 0, false;
      NothingGrows(Epoch(cfg.formats.pager(file), []));
    }

    function Wal(): (wal: Bytes)
      requires epochs != []
      reads this
    {
      epochs[|epochs| - 1].wal
    }

    /** What the application sees now: the file and the complete frames of the WAL. */
    function Content(): (db: Db)
      requires epochs != []
      reads this
    {
      Observe(Play(cfg.formats.pager(file), Frames(Wal())))
    }

    /** Backfill or not, the application sees the end of the history. */
    lemma ContentIsTip()
      requires Valid()
      ensures Content() == StateAt(epochs, Tip(epochs))
    {
      SnapshotPlusWal(cfg, epochs[|epochs| - 1], file, backfilled, Wal());
    }

    /** The application appends bytes to the WAL, possibly ending in a torn frame. */
    method Append(extra: Bytes)
      requires Valid()
      modifies this
      ensures Valid() && Extends(old(epochs), epochs) && |epochs| == |old(epochs)|
      ensures file == old(file)
    {
      hide SaltsDistinct, Chained, CarriesCuts, FileShows, Carries, EpochGrows;
      var last := |epochs| - 1;
      var longer := epochs[last].(wal := epochs[last].wal + extra);
      var grown := epochs[last := longer];
      assert epochs[last].wal <= longer.wal;
      if SaltsDistinct(grown) && CarriesCuts(cfg, longer.wal) && EpochGrows(longer, longer.wal) {
        FileShowsStable(cfg, file, epochs[last], longer, backfilled);
        GrowthKeepsChain(epochs, grown);
        epochs := grown;
        walExists := true;
      }
    }

    /** A checkpoint copies the first `k` frames of the WAL into the file; the WAL stays. */
    method Backfill(k: nat, newFile: Bytes)
      requires Valid()
      modifies this
      ensures Valid() && epochs == old(epochs)
    {
      if FileShows(cfg, newFile, epochs[|epochs| - 1], k) && Carries(cfg, newFile) {
        file, backfilled := newFile, k;
      }
    }

    /** A checkpoint copies every frame into the file and empties the WAL; a new epoch begins. */
    method Reset(newFile: Bytes) returns (done: bool)
      requires Valid()
      modifies this
      ensures Valid() && Extends(old(epochs), epochs)
      ensures done ==> |epochs| == |old(epochs)| + 1 && Wal() == []
      ensures !done ==> epochs == old(epochs)
    {
      hide SaltsDistinct, Chained, CarriesCuts, FileShows, Carries, StateAt, Extends, EpochGrows;
      var db := cfg.formats.pager(newFile);
      done := Observe(db) == StateAt(epochs, Tip(epochs)) && Carries(cfg, newFile);
      ExtendsReflexive(epochs);
      if done {
        EpochAdded(newFile);
        epochs, file, backfilled := epochs + [Epoch(db, [])], newFile, 0;
      }
    }

    /** A new epoch with an empty WAL fits the history. */
    lemma EpochAdded(newFile: Bytes)
      requires Valid() && Observe(cfg.formats.pager(newFile)) == StateAt(epochs, Tip(epochs))
      ensures var next := epochs + [Epoch(cfg.formats.pager(newFile), [])];
              && SaltsDistinct(next) && Chained(next) && Extends(epochs, next)
              && FileShows(cfg, newFile, next[|next| - 1], 0) && EpochGrows(next[|next| - 1], [])
              && forall i :: 0 <= i < |next| ==> CarriesCuts(cfg, next[i].wal)
    {
      hide Carries, StateAt, FrameBoundary, Play;
      var next := epochs + [Epoch(cfg.formats.pager(newFile), [])];
      GrowthKeepsChain(epochs, next);
      hide Chained;
      NothingPlayed(cfg.formats.pager(newFile));
      NothingGrows(next[|next| - 1]);
      assert Frames([])[..0] == [];
    }

    lemma GrowthKeepsChain(before: seq<Epoch>, after: seq<Epoch>)
      requires Chained(before) && Extends(before, after) && before != []
      requires |after| == |before| ||
               (after[..|before|] == before && |after| == |before| + 1 &&
                Observe(after[|before|].base) == StateAt(before, Tip(before)))
      ensures Chained(after)
    {
      hide Observe, StateAt, Play, Frames;
      forall i | 0 < i < |after|
        ensures Observe(after[i].base) == StateAt(after, Point(i - 1, FrameCount(after[i - 1].wal)))
      {
        assert after[i - 1].wal == before[i - 1].wal;
        assert i < |before| ==> after[i].base == before[i].base;
        PastIsStable(before, after, Point(i - 1, FrameCount(before[i - 1].wal)));
      }
    }

    method Step(mayReset: bool)
      requires Valid()
      modifies this
      ensures Valid() && Extends(old(epochs), epochs)
      ensures !mayReset ==> |epochs| == |old(epochs)|
    {
      var bytes: Bytes :| true;
      var k: nat :| true;
      if * {
        Append(bytes);
      } else if * {
        Backfill(k, bytes);
      } else if mayReset {
        var _ := Reset(bytes);
      }
    }

    /**
     The application and its checkpoints run for a while. Resets happen only where `mayReset`
     allows them; everything else happens in any order, any number of times.
     */
    method Interfere(mayReset: bool)
      requires Valid()
      modifies this
      ensures Valid() && Extends(old(epochs), epochs)
      ensures !mayReset ==> |epochs| == |old(epochs)|
    {
      var steps: nat :| true;
      for n := 0 to steps
        invariant Valid() && Extends(old(epochs), epochs)
        invariant !mayReset ==> |epochs| == |old(epochs)|
      {
        ghost var before := epochs;
        Step(mayReset);
        ExtendsTransitive(old(epochs), before, epochs);
      }
    }

    /**
     PRAGMA wal_checkpoint(TRUNCATE). It fails inside an open read transaction of the same
     connection, and when it is refused for other reasons; else it completes, or is held up by other
     readers after a partial backfill and still reports success.
     */
    method CheckpointTruncate(conn: Connection) returns (ok: bool)
      requires Valid()
      modifies this, conn`checkpoints, conn`heldUp
      ensures ok <==> !conn.inTransaction && !conn.refuses(old(conn.checkpoints))
      ensures Valid() && Extends(old(epochs), epochs)
      ensures conn.checkpoints == old(conn.checkpoints) + 1
      ensures conn.heldUp == old(conn.heldUp) || (ok && conn.heldUp == old(conn.heldUp) + 1)
      ensures ok && conn.heldUp == old(conn.heldUp) ==> |epochs| == |old(epochs)| + 1
      ensures !ok || conn.heldUp != old(conn.heldUp) ==> epochs == old(epochs)
    {
      ok := !conn.inTransaction && !conn.refuses(conn.checkpoints);
      conn.checkpoints := conn.checkpoints + 1;
      if ok {
        var bytes: Bytes :| true;
        var k: nat :| true;
        var complete := false;
        if * {
          complete := Reset(bytes);
        } else {
          Backfill(k, bytes);
        }
        if !complete {
          conn.heldUp := conn.heldUp + 1;
        }
      }
    }
  }

  /** The manager's own connection to the database. */
  class Connection {
    /** A read transaction is open and pins the WAL. */
    var inTransaction: bool
    /** Whether the n-th checkpoint asked for will be refused, for whatever reason: the world's choice. */
    const refuses: nat -> bool
    /** How many checkpoints this connection has asked for. */
    var checkpoints: nat
    /** How many of these reported success although other readers held them up. */
    ghost var heldUp: nat

    constructor (refuses: nat -> bool)
      ensures !inTransaction && checkpoints == 0 && heldUp == 0 && this.refuses == refuses
    {
      this.refuses := refuses;
      inTransaction, checkpoints, heldUp := false, 0, 0;
    }
  }

  /** No checkpoint asked for through this connection is refused. */
  ghost predicate Obliging(conn: Connection)
  {
    forall n :: !conn.refuses(n)
  }

  /** The clock and the random source. */
  class Host {
    var clock: nat
    /** Generation ids handed out, or already seen in the store. */
    var issued: set<string>

    constructor (now: nat)
      ensures clock == now && issued == {}
    {
      clock, issued := now, {};
    }

    /** The clock never runs backwards. */
    method NowMs() returns (t: nat)
      modifies this`clock
      ensures t == clock && clock >= old(clock)
    {
      var passed: nat :| true;
      clock := clock + passed;
      t := clock;
    }

    /** Time passes. */
    method WaitPast(t: nat)
      modifies this`clock
      ensures clock > t && clock >= old(clock)
    {
      var passed: nat :| true;
      clock := (if clock > t then clock else t + 1) + passed;
    }

    /** A version 4 UUID: fresh, and without a slash. */
    method NewUuid() returns (id: string)
      modifies this`issued
      ensures NoSlash(id) && id !in old(issued) && issued == old(issued) + {id}
    {
      var n := LongerThanAll(issued);
      assert NoSlash(Zeros(n)) && Zeros(n) !in issued;
      id :| NoSlash(id) && id !in issued;
      issued := issued + {id};
    }

    method FillBytes(n: nat) returns (b: Bytes)
      ensures |b| == n
    {
      var drawn: Bytes :| true;
      b := if |drawn| == n then drawn else seq(n, _ => 0);
    }
  }

  lemma LongerThanAll(s: set<string>) returns (n: nat)
    ensures forall x :: x in s ==> |x| < n
  {
    n := 0;
    var todo := s;
    while todo != {}
      invariant todo <= s && forall x :: x in s - todo ==> |x| < n
      decreases |todo|
    {
      var x :| x in todo;
      n := if |x| < n then n else |x| + 1;
      todo := todo - {x};
    }
  }
}
