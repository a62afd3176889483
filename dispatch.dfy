/**
 * The start of a training run: choose the world size from the requested and
 * the available device counts, then either exit with code 1, run a single
 * worker in this process, or start one worker process per rank. The log
 * directory is created once the device check has passed and before any worker
 * runs. Starting, joining and the rendezvous of the processes are not modelled;
 * only the plan of `(rank, world_size)` arguments is.
 */
module Dispatch {
  import Naming

  /** The world-size decision: refuse the run, or accept it with a world size. */
  datatype Decision = Reject | Accept(worldSize: int)

  /** The arguments `worker(rank, world_size, args)` is started with. */
  datatype WorkerArgs = WorkerArgs(rank: int, worldSize: int)

  /** What `main` does once its arguments are parsed. */
  datatype Launch =
    | Exit(code: int)
    | InProcess(logDir: string, worker: WorkerArgs)
    | Spawn(logDir: string, workers: seq<WorkerArgs>)

  /** Requested count -1 means "all available devices". */
  const ALL_DEVICES := -1

  /**
   * `world_size` from `--ngpus`: -1 takes every available device; a request
   * above the available count is refused; any other request is taken as is.
   */
  function WorldSize(ngpus: int, available: nat): (d: Decision)
    ensures d.Reject? <==> ngpus != ALL_DEVICES && ngpus > available
    ensures d.Accept? ==> d.worldSize <= available
    ensures ngpus == ALL_DEVICES ==> d == Accept(available)
    ensures ngpus != ALL_DEVICES && d.Accept? ==> d.worldSize == ngpus
  {
    if ngpus == ALL_DEVICES then Accept(available)
    else if ngpus > available then Reject
    else Accept(ngpus)
  }

  /** Eight devices requested with four available: the run is refused. */
  lemma TooFewDevicesRejected()
    ensures WorldSize(8, 4) == Reject
  {
  }

  /**
   * `main` after parsing: exit 1 on a refused request; otherwise create the
   * log directory and, for a world size above 1, start workers of ranks
   * 0 .. world_size - 1 in that order, each told the world size; for any other
   * world size run `worker(0, 1, args)` in this process.
   */
  method Run(ngpus: int, available: nat, file: string) returns (l: Launch)
    ensures l.Exit? <==> WorldSize(ngpus, available).Reject?
    ensures l.Exit? ==> l.code == 1
    ensures !l.Exit? ==> l.logDir == Naming.LogDir(file)
    ensures l.Spawn? <==> WorldSize(ngpus, available).Accept? && WorldSize(ngpus, available).worldSize > 1
    ensures l.Spawn? ==> |l.workers| == WorldSize(ngpus, available).worldSize && 1 < |l.workers| <= available
    ensures l.Spawn? ==> forall i :: 0 <= i < |l.workers| ==> l.workers[i] == WorkerArgs(i, |l.workers|)
    ensures l.InProcess? ==> l.worker == WorkerArgs(0, 1)
  {
    var worldSize: int;
    if ngpus == ALL_DEVICES {
      worldSize := available;
    } else {
      if ngpus > available {
        return Exit(1);
      } else {
        worldSize := ngpus;
      }
    }
    var logDir := Naming.LogDir(file);
    if worldSize > 1 {
      var processes: seq<WorkerArgs> := [];
      for i := 0 to worldSize
        invariant |processes| == i
        invariant forall j :: 0 <= j < i ==> processes[j] == WorkerArgs(j, worldSize)
      {
        processes := processes + [WorkerArgs(i, worldSize)];
      }
      l := Spawn(logDir, processes);
    } else {
      l := InProcess(logDir, WorkerArgs(0, 1));
    }
  }
}
