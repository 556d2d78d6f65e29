/** The socket-activation decoder `get()`: it reads `LISTEN_PID`, `LISTEN_FDS`
    and `LISTEN_FDNAMES` (the `sd_listen_fds(3)` contract) and returns the
    inherited descriptors, numbered from 3, each paired with an optional name,
    or the single error `MalformedEnv`.

    The environment reads and the current process id are parameters: an
    environment variable that is unset or not valid Unicode is `None`, as
    `env::var` fails on both. A descriptor is represented by its number. */
module Activation {
  import opened Wrappers
  import opened Decimal
  import opened Split

  /** The only failure: a socket-activation variable is present but malformed. */
  datatype Error = MalformedEnv

  /** One inherited socket: the name given to it, if any, and its descriptor. */
  datatype Entry = Entry(name: Option<string>, fd: nat)

  /** Descriptors 0, 1 and 2 are standard input, output and error; the
      passed sockets start right after them. */
  const SD_LISTEN_FDS_START: nat := 3

  /** The largest `LISTEN_FDS` the overflow guard lets through. */
  const MAX_FD_COUNT: nat := U32_MAX - SD_LISTEN_FDS_START

  /** `LISTEN_FDNAMES`, with an unset variable read as the empty string. */
  function NamesRaw(listenFdNames: Option<string>): string {
    listenFdNames.GetOr("")
  }

  /** The name belonging to the descriptor at position `i`: the `i`-th
      colon-separated field while there is one; none after the fields run out
      or when the name list is empty. */
  function NameAt(namesRaw: string, i: nat): Option<string> {
    if namesRaw == [] then None
    else
      var fields := SplitColon(namesRaw);
      if i < |fields| then Some(fields[i]) else None
  }

  /** The entry the decoder promises at position `i`. */
  function Expected(namesRaw: string, i: nat): Entry {
    Entry(NameAt(namesRaw, i), SD_LISTEN_FDS_START + i)
  }

  /** What is left of the `split(':')` iterator after `i` loop iterations. It
      is only advanced when the name list is non-empty, and once exhausted it
      stays exhausted. */
  function Unconsumed(namesRaw: string, i: nat): seq<string> {
    var fields := SplitColon(namesRaw);
    if namesRaw == [] then fields
    else if i <= |fields| then fields[i..]
    else []
  }

  /** `Iterator::next` on the split: the next field and the rest. */
  function Next(names: seq<string>): (Option<string>, seq<string>) {
    if names == [] then (None, []) else (Some(names[0]), names[1..])
  }

  /** One iteration of the loop advances the iterator in step with the
      positional naming: it yields the name for position `i` and leaves what
      remains after position `i`. */
  lemma NextFollowsPosition(namesRaw: string, i: nat)
    ensures (if namesRaw == [] then (None, Unconsumed(namesRaw, i)) else Next(Unconsumed(namesRaw, i)))
            == (NameAt(namesRaw, i), Unconsumed(namesRaw, i + 1))
  {
    var fields := SplitColon(namesRaw);
    if namesRaw != [] && i < |fields| {
      assert fields[i..][1..] == fields[i + 1..];
    }
  }

  /** The descriptor loop `for i in 0..fd_count`, from iteration `i` on, with
      the iterator state `names` and the entries `acc` pushed so far. The
      descriptor number `SD_LISTEN_FDS_START + i` is computed as a `u32`, so
      its well-formedness is the proof that the addition never wraps. */
  function Collect(namesRaw: string, names: seq<string>, count: nat, i: nat, acc: seq<Entry>): (r: seq<Entry>)
    requires count <= MAX_FD_COUNT && i <= count
    requires names == Unconsumed(namesRaw, i)
    requires |acc| == i && forall k :: 0 <= k < i ==> acc[k] == Expected(namesRaw, k)
    ensures |r| == count
    ensures forall k :: 0 <= k < count ==> r[k] == Expected(namesRaw, k)
    decreases count - i
  {
    if i == count then acc
    else
      var (name, rest) := if namesRaw == [] then (None, names) else Next(names);
      NextFollowsPosition(namesRaw, i);
      var fd: u32 := SD_LISTEN_FDS_START + i;
      var acc' := acc + [Entry(name, fd)];
      assert forall k :: 0 <= k < i + 1 ==> acc'[k] == Expected(namesRaw, k);
      Collect(namesRaw, rest, count, i + 1, acc')
  }

  /** `LISTEN_PID` is present and names this process. */
  predicate Addressed(listenPid: Option<string>, selfPid: u32) {
    listenPid.Some? && IsU32Literal(listenPid.value) && LiteralValue(listenPid.value) == selfPid
  }

  /** `LISTEN_PID` is present but not a `u32`. */
  predicate MalformedPid(listenPid: Option<string>) {
    listenPid.Some? && !IsU32Literal(listenPid.value)
  }

  /** `LISTEN_FDS` is present but not a `u32`, or too large for the
      descriptor numbers to fit in a `u32`. */
  predicate MalformedCount(listenFds: Option<string>) {
    listenFds.Some? && !(IsU32Literal(listenFds.value) && LiteralValue(listenFds.value) <= MAX_FD_COUNT)
  }

  /** The protocol is engaged: this process is addressed and gets a usable count. */
  predicate Engaged(listenPid: Option<string>, listenFds: Option<string>, selfPid: u32) {
    Addressed(listenPid, selfPid) && listenFds.Some? && !MalformedCount(listenFds)
  }

  /** `get()` on Linux. It fails exactly when `LISTEN_PID` is malformed, or
      when it names this process and `LISTEN_FDS` is malformed or too large;
      it returns nothing unless the protocol is engaged; and when it is, it
      returns `LISTEN_FDS` entries, the `i`-th with descriptor `3 + i` and the
      `i`-th name. */
  function Get(listenPid: Option<string>, listenFds: Option<string>, listenFdNames: Option<string>, selfPid: u32)
    : (r: Result<seq<Entry>, Error>)
    ensures r.Err? <==> MalformedPid(listenPid) || (Addressed(listenPid, selfPid) && MalformedCount(listenFds))
    ensures r.Ok? && !Engaged(listenPid, listenFds, selfPid) ==> r.value == []
    ensures Engaged(listenPid, listenFds, selfPid) ==>
              r.Ok? && |r.value| == LiteralValue(listenFds.value) &&
              forall k :: 0 <= k < |r.value| ==> r.value[k] == Expected(NamesRaw(listenFdNames), k)
  {
    match listenPid
    case None => Ok([])
    case Some(pidText) =>
      match ParseU32(pidText)
      case None => Err(MalformedEnv)
      case Some(pid) =>
        if pid != selfPid then Ok([])
        else
          match listenFds
          case None => Ok([])
          case Some(countText) =>
            match ParseU32(countText)
            case None => Err(MalformedEnv)
            case Some(count) =>
              if count > U32_MAX - SD_LISTEN_FDS_START then Err(MalformedEnv)
              else
                var namesRaw := NamesRaw(listenFdNames);
                Ok(Collect(namesRaw, SplitColon(namesRaw), count, 0, []))
  }
}
