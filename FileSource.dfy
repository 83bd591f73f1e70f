/** sources/file/main.go: the file source. A CSV file lists one host per
    record, the host in the first field and its IP addresses in the others;
    the source reports an event per (host, IP) pair, and when the file is
    modified it withdraws the pairs it read last time and reports the new
    ones.

    Reading and parsing the file is an input (`Result<Records>`); the CSV
    reader never yields an empty record, which the model requires of a
    successful read. */
module FileSource {
  import opened Wrappers
  import opened HipdateStructs

  type Records = seq<seq<string>>

  /** Every record has its host field. */
  predicate WellFormed(r: Records)
  {
    forall i :: 0 <= i < |r| ==> |r[i]| >= 1
  }

  /** The events of one record: one per field after the first, in field
      order, each naming the record's host. */
  function RecordEvents(kind: string, l: seq<string>): (r: seq<ChangeEvent>)
    requires |l| >= 1
    ensures |r| == |l| - 1
    ensures forall j :: 0 <= j < |r| ==> r[j] == ChangeEvent(kind, l[0], l[j + 1])
  {
    seq(|l| - 1, j requires 0 <= j < |l| - 1 => ChangeEvent(kind, l[0], l[j + 1]))
  }

  /** The events of all records, record after record. */
  function RecordsEvents(kind: string, r: Records): seq<ChangeEvent>
    requires WellFormed(r)
  {
    if r == [] then []
    else RecordsEvents(kind, r[..|r| - 1]) + RecordEvents(kind, r[|r| - 1])
  }

  /** A record holding only its host reports nothing. */
  lemma HostOnlyRecord(kind: string, h: string)
    ensures RecordEvents(kind, [h]) == []
  {
  }

  /** The events of two runs of records are those of the first run followed
      by those of the second. */
  lemma {:induction false} RecordsEventsAppend(kind: string, a: Records, b: Records)
    requires WellFormed(a) && WellFormed(b)
    ensures WellFormed(a + b)
    ensures RecordsEvents(kind, a + b) == RecordsEvents(kind, a) + RecordsEvents(kind, b)
    decreases |b|
  {
    assert WellFormed(a + b) by {
      forall i | 0 <= i < |a + b|
        ensures |(a + b)[i]| >= 1
      {
        if i >= |a| {
          assert (a + b)[i] == b[i - |a|];
        }
      }
    }
    if b == [] {
      assert a + b == a;
    } else {
      var b' := b[..|b| - 1];
      RecordsEventsAppend(kind, a, b');
      assert (a + b)[..|a + b| - 1] == a + b';
    }
  }

  /** Field `j` (after the host) of record `i` is reported right after the
      events of the records before it. */
  lemma RecordsEventsAt(kind: string, r: Records, i: nat, j: nat)
    requires WellFormed(r)
    requires i < |r| && 1 <= j < |r[i]|
    ensures var before := |RecordsEvents(kind, r[..i])|;
            before + j - 1 < |RecordsEvents(kind, r)|
            && RecordsEvents(kind, r)[before + j - 1] == ChangeEvent(kind, r[i][0], r[i][j])
  {
    var front, back := r[..i + 1], r[i + 1..];
    assert r == front + back;
    assert WellFormed(front) && WellFormed(back) by {
      assert forall n :: 0 <= n < |front| ==> front[n] == r[n];
      assert forall n :: 0 <= n < |back| ==> back[n] == r[i + 1 + n];
    }
    RecordsEventsAppend(kind, front, back);
    assert front[..i] == r[..i] && front[i] == r[i];
    assert RecordsEvents(kind, front) == RecordsEvents(kind, r[..i]) + RecordEvents(kind, r[i]);
  }

  /** The same records report, event by event, the same hosts and IPs
      whatever the kind; only the kind differs. */
  lemma {:induction false} RecordsEventsMirror(k1: string, k2: string, r: Records)
    requires WellFormed(r)
    ensures |RecordsEvents(k1, r)| == |RecordsEvents(k2, r)|
    ensures forall n :: 0 <= n < |RecordsEvents(k1, r)| ==>
              RecordsEvents(k1, r)[n].kind == k1 && RecordsEvents(k2, r)[n].kind == k2
              && RecordsEvents(k1, r)[n].host == RecordsEvents(k2, r)[n].host
              && RecordsEvents(k1, r)[n].ip == RecordsEvents(k2, r)[n].ip
    decreases |r|
  {
    if r != [] {
      RecordsEventsMirror(k1, k2, r[..|r| - 1]);
    }
  }

  /** A file event: the path it concerns and whether it is a modification
      and whether it only changed attributes. */
  datatype FileEvent = FileEvent(name: string, isModify: bool, isAttrib: bool)

  /** The source's state: the records read last and the events sent so far. */
  datatype State = State(lf: Records, events: seq<ChangeEvent>)

  /** Initialise on state: a successful read is stored and reported as
      additions; a failed one changes nothing. */
  function AfterInitialise(s: State, read: Result<Records>): State
    requires WellFormed(s.lf)
    requires read.Ok? ==> WellFormed(read.value)
  {
    match read
    case Err(_) => s
    case Ok(r) => State(r, s.events + RecordsEvents("add", r))
  }

  /** The records a reload works with: those read, or none when the read
      failed (processFile then yields nil). */
  function Reloaded(read: Result<Records>): Records
  {
    match read
    case Err(_) => []
    case Ok(r) => r
  }

  /** The reload step of the event handler on state: an event for another
      path, or one that is not a plain modification, changes nothing;
      otherwise the last records are withdrawn, the new ones reported and
      kept. */
  function AfterFileEvent(s: State, path: string, fe: FileEvent, read: Result<Records>): State
    requires WellFormed(s.lf)
    requires read.Ok? ==> WellFormed(read.value)
  {
    if fe.name != path || !(fe.isModify && !fe.isAttrib) then s
    else
      var r := Reloaded(read);
      State(r, s.events + RecordsEvents("remove", s.lf) + RecordsEvents("add", r))
  }

  /** A failed reload still withdraws everything and leaves no records. */
  lemma ReloadFailure(s: State, path: string, msg: string)
    requires WellFormed(s.lf)
    ensures AfterFileEvent(s, path, FileEvent(path, true, false), Err(msg))
              == State([], s.events + RecordsEvents("remove", s.lf))
  {
    assert RecordsEvents("add", []) == [];
  }

  /** Reloading an unchanged file withdraws and re-reports the same pairs:
      the events split into two halves of equal length that agree on host
      and IP position by position. */
  lemma ReloadUnchanged(s: State, path: string)
    requires WellFormed(s.lf)
    ensures var t := AfterFileEvent(s, path, FileEvent(path, true, false), Ok(s.lf));
            var n := |RecordsEvents("add", s.lf)|;
            t.lf == s.lf && |t.events| == |s.events| + 2 * n
            && t.events[..|s.events|] == s.events
            && forall k :: 0 <= k < n ==>
                 t.events[|s.events|..][k].kind == "remove" && t.events[|s.events| + n..][k].kind == "add"
                 && t.events[|s.events|..][k].host == t.events[|s.events| + n..][k].host
                 && t.events[|s.events|..][k].ip == t.events[|s.events| + n..][k].ip
  {
    RecordsEventsMirror("remove", "add", s.lf);
    var removed := RecordsEvents("remove", s.lf);
    var added := RecordsEvents("add", s.lf);
    var t := AfterFileEvent(s, path, FileEvent(path, true, false), Ok(s.lf));
    assert t.events == s.events + removed + added;
    assert t.events[|s.events|..][..|removed|] == removed;
    assert t.events[|s.events| + |removed|..] == added;
  }

  class FileSource {
    const path: string
    var lf: Records
    var events: seq<ChangeEvent>

    ghost predicate Valid()
      reads this
    {
      WellFormed(lf)
    }

    /** NewFileSource once the path option is found: no records, nothing
        sent. */
    constructor (p: string)
      ensures path == p && lf == [] && events == []
      ensures Valid()
    {
      path := p;
      lf := [];
      events := [];
    }

    /** processRecords: sends the events of the records, in order. */
    method ProcessRecords(e: string, r: Records)
      requires WellFormed(r)
      modifies this
      ensures lf == old(lf)
      ensures events == old(events) + RecordsEvents(e, r)
    {
      for i := 0 to |r|
        invariant lf == old(lf)
        invariant events == old(events) + RecordsEvents(e, r[..i])
      {
        var l := r[i];
        var h := l[0];
        assert r[..i + 1][..i] == r[..i];
        ghost var sent := events;
        for j := 1 to |l|
          invariant lf == old(lf)
          invariant events == sent + RecordEvents(e, l[..j])
        {
          events := events + [NewChangeEvent(e, h, l[j])];
        }
        assert l[..|l|] == l;
      }
      assert r[..|r|] == r;
    }

    /** Initialise: stores and reports the records read; a failed read is
        returned as the error and changes nothing. */
    method Initialise(read: Result<Records>) returns (err: Option<string>)
      requires Valid()
      requires read.Ok? ==> WellFormed(read.value)
      modifies this
      ensures Valid()
      ensures State(lf, events) == AfterInitialise(State(old(lf), old(events)), read)
      ensures err == (if read.Err? then Some(read.msg) else None)
    {
      if read.Err? {
        return Some(read.msg);
      }
      var r := read.value;
      lf := r;
      ProcessRecords("add", r);
      err := None;
    }

    /** The reload step of eventHandler for one file event. */
    method HandleFileEvent(fe: FileEvent, read: Result<Records>)
      requires Valid()
      requires read.Ok? ==> WellFormed(read.value)
      modifies this
      ensures Valid()
      ensures State(lf, events) == AfterFileEvent(State(old(lf), old(events)), path, fe, read)
    {
      if fe.name != path {
        return;
      }
      if fe.isModify && !fe.isAttrib {
        var r := if read.Ok? then read.value else [];
        ProcessRecords("remove", lf);
        ProcessRecords("add", r);
        lf := r;
      }
    }
  }
}
