// LogFile: appends log lines to a file, rolling to a new file when the
// current one has grown past rollSize or a new day has begun, and flushing
// when more than flushInterval seconds have passed since the last flush.
// The clock readings, the host name, the pid and the strftime rendering
// of a file name's time part are inputs; so are the counts fwrite reports.
module LogFiles {
  import opened Text

  /** kCheckTimeRoll_: how far count_ runs before the clock is consulted. */
  const kCheckTimeRoll: int := 1024
  /** kRollPerSeconds_: the length of a period, one day. */
  const kRollPerSeconds: nat := 60 * 60 * 24

  function Min(a: nat, b: nat): nat
  {
    if a <= b then a else b
  }

  /**
   * The count the k-th fwrite_unlocked call reports when asked for request
   * bytes: the given count, never more than was asked for, and 0 once the
   * given counts run out.
   */
  function Wrote(accepts: seq<nat>, k: nat, request: nat): (x: nat)
    ensures x <= request
  {
    if k < |accepts| then Min(accepts[k], request) else 0
  }

  /** File::append's while loop, from n bytes written with the k-th call next. */
  function WriteLoop(len: nat, n: nat, accepts: seq<nat>, k: nat): (r: nat)
    requires n <= len
    ensures n <= r <= len
    decreases len - n
  {
    if n == len then n
    else
      var x := Wrote(accepts, k, len - n);
      if x == 0 then n else WriteLoop(len, n + x, accepts, k + 1)
  }

  /** The bytes of a len-byte line that reach the file: the first call, then the loop. */
  function Accepted(len: nat, accepts: seq<nat>): (r: nat)
    ensures r <= len
  {
    WriteLoop(len, Wrote(accepts, 0, len), accepts, 1)
  }

  /**
   * When every fwrite call takes at least one byte, the loop keeps going
   * until the whole line is written.
   */
  lemma {:induction false} WriteLoopCompletes(len: nat, n: nat, accepts: seq<nat>, k: nat)
    requires n <= len && (k <= n || n == len)
    requires |accepts| >= len && forall j :: k <= j < len ==> accepts[j] >= 1
    ensures WriteLoop(len, n, accepts, k) == len
    decreases len - n
  {
    if n < len {
      var x := Wrote(accepts, k, len - n);
      assert x >= 1;
      WriteLoopCompletes(len, n + x, accepts, k + 1);
    }
  }

  /** A whole line reaches the file when no write comes back empty-handed. */
  lemma AcceptedAll(len: nat, accepts: seq<nat>)
    requires |accepts| >= len && forall j :: 0 <= j < len ==> accepts[j] >= 1
    ensures Accepted(len, accepts) == len
  {
    WriteLoopCompletes(len, Wrote(accepts, 0, len), accepts, 1);
  }

  /** A write that reports nothing stops the loop with what was written before it. */
  lemma AcceptedStopsAtZero(len: nat, accepts: seq<nat>)
    requires 0 < len && |accepts| >= 2 && 1 <= accepts[0] < len && accepts[1] == 0
    ensures Accepted(len, accepts) == accepts[0]
  {
  }

  /** now / kRollPerSeconds_ * kRollPerSeconds_: the start of now's day. */
  function PeriodStart(now: nat): nat
  {
    now / kRollPerSeconds * kRollPerSeconds
  }

  /** The period start is the midnight at or before now, and two times share one iff they share a day. */
  lemma PeriodStartIsMidnight(now: nat, later: nat)
    ensures PeriodStart(now) % kRollPerSeconds == 0
    ensures PeriodStart(now) <= now < PeriodStart(now) + kRollPerSeconds
    ensures PeriodStart(now) == PeriodStart(later) <==> now / kRollPerSeconds == later / kRollPerSeconds
  {
    var d := now / kRollPerSeconds;
    assert PeriodStart(now) == d * 86400;
    assert (d * 86400) % 86400 == 0;
  }

  /** getLogFileName: basename, the time part, the host name, "." and the pid, then ".log". */
  function LogFileName(basename: string, stamp: string, hostname: string, pid: int): string
  {
    basename + stamp + hostname + "." + DecimalString(pid) + ".log"
  }

  /**
   * A log file's name begins with the basename and ends with ".log", and
   * with the other parts fixed, different pids give different names.
   */
  lemma LogFileNameShape(basename: string, stamp: string, hostname: string, pid: int, pid': int)
    ensures basename <= LogFileName(basename, stamp, hostname, pid)
    ensures var n := LogFileName(basename, stamp, hostname, pid); |n| >= 4 && n[|n| - 4..] == ".log"
    ensures LogFileName(basename, stamp, hostname, pid) == LogFileName(basename, stamp, hostname, pid') ==> pid == pid'
  {
    var prefix := basename + stamp + hostname + ".";
    var n, n' := LogFileName(basename, stamp, hostname, pid), LogFileName(basename, stamp, hostname, pid');
    assert n == prefix + DecimalString(pid) + ".log";
    assert n' == prefix + DecimalString(pid') + ".log";
    assert n[..|basename|] == basename;
    assert n[|n| - 4..] == ".log";
    if n == n' {
      assert |DecimalString(pid)| == |DecimalString(pid')|;
      assert DecimalString(pid) == n[|prefix|..|n| - 4];
      assert DecimalString(pid') == n'[|prefix|..|n'| - 4];
      DecimalInjective(pid, pid');
    }
  }

  /** count_'s next value on an append that does not roll by size. */
  function NextCount(c: int): int
  {
    if c > kCheckTimeRoll then 0 else c + 1
  }

  /** count_ after k appends from 0, none of which rolled by size. */
  function CountAfter(k: nat): int
  {
    if k == 0 then 0 else NextCount(CountAfter(k - 1))
  }

  /**
   * count_ runs 0, 1, ..., 1025 and back to 0: the clock is consulted on
   * one append in every kCheckTimeRoll_ + 2, the (1026 m)-th.
   */
  lemma {:induction false} CountCycle(k: nat)
    ensures CountAfter(k) == k % (kCheckTimeRoll + 2)
    ensures CountAfter(k) > kCheckTimeRoll <==> (k + 1) % (kCheckTimeRoll + 2) == 0
  {
    if k > 0 {
      CountCycle(k - 1);
      var r := (k - 1) % 1026;
      var q := (k - 1) / 1026;
      assert k - 1 == q * 1026 + r;
      if r == 1025 {
        assert k == (q + 1) * 1026;
      } else {
        assert k == q * 1026 + (r + 1);
      }
    }
  }

  class File {
    /** The name it was opened with. */
    const name: string
    /** What fwrite has accepted so far. */
    var contents: seq<char>
    /** writtenBytes_. */
    var writtenBytes: nat
    /** The number of fflush calls. */
    var flushes: nat

    constructor (name: string)
      ensures this.name == name && contents == [] && writtenBytes == 0 && flushes == 0
    {
      this.name := name;
      contents, writtenBytes, flushes := [], 0, 0;
    }

    /**
     * append(logline, len): writes, and writes the rest again, until all of
     * it is written or a write takes nothing; writtenBytes_ grows by len
     * either way.
     */
    method Append(logline: seq<char>, len: nat, accepts: seq<nat>)
      requires len <= |logline|
      modifies this`contents, this`writtenBytes
      ensures contents == old(contents) + logline[..Accepted(len, accepts)]
      ensures writtenBytes == old(writtenBytes) + len
    {
      var n := Wrote(accepts, 0, len);
      contents := contents + logline[..n];
      var k := 1;
      var remain := len - n;
      while remain > 0
        invariant n <= len && remain == len - n
        invariant WriteLoop(len, n, accepts, k) == Accepted(len, accepts)
        invariant contents == old(contents) + logline[..n] && writtenBytes == old(writtenBytes)
        decreases remain
      {
        var x := Wrote(accepts, k, remain);
        if x == 0 {
          assert WriteLoop(len, n, accepts, k) == n;
          break;
        }
        assert logline[..n + x] == logline[..n] + logline[n..n + x];
        contents := contents + logline[n..n + x];
        n := n + x;
        k := k + 1;
        remain := len - n;
      }
      writtenBytes := writtenBytes + len;
    }

    /** flush(): fflush. */
    method Flush()
      modifies this`flushes
      ensures flushes == old(flushes) + 1
    {
      flushes := flushes + 1;
    }
  }

  class LogFile {
    const basename: string
    const rollSize: nat
    const flushInterval: int
    var count: int
    var startOfPeriod: nat
    var lastRoll: nat
    var lastFlush: nat
    /** file_: null until the first roll. */
    var file: File?
    /** The names of the files opened so far, in order. */
    ghost var rolled: seq<string>

    ghost predicate Valid()
      reads this, file
    {
      && 0 <= count <= kCheckTimeRoll + 1
      && startOfPeriod == PeriodStart(lastRoll)
      && (file == null <==> rolled == [])
      && (file != null ==> file.name == rolled[|rolled| - 1])
    }

    /** The effect of rollFile with the clock at now and the file name name. */
    twostate predicate RolledAt(now: nat, name: string)
      reads this, file
    {
      if now > old(lastRoll) then
        && lastRoll == now && lastFlush == now && startOfPeriod == PeriodStart(now)
        && file != null && fresh(file) && file.name == name && file.contents == [] && file.writtenBytes == 0
        && file.flushes == 0 && rolled == old(rolled) + [name]
      else
        && lastRoll == old(lastRoll) && lastFlush == old(lastFlush) && startOfPeriod == old(startOfPeriod)
        && file == old(file) && rolled == old(rolled)
    }

    /**
     * LogFile(basename, rollSize, threadSafe, flushInterval): asserts a
     * basename with no '/', starts with all times 0 and rolls once, which
     * opens the first file unless the clock reads 0.
     */
    constructor (basename: string, rollSize: nat, flushInterval: int, now: nat, stamp: string, hostname: string, pid: int)
      requires '/' !in basename
      ensures Valid()
      ensures this.basename == basename && this.rollSize == rollSize && this.flushInterval == flushInterval
      ensures count == 0
      ensures now > 0 ==> file != null && fresh(file) && file.name == LogFileName(basename, stamp, hostname, pid)
      ensures now > 0 ==> lastRoll == now && lastFlush == now && startOfPeriod == PeriodStart(now)
      ensures now == 0 ==> file == null && lastRoll == 0 && lastFlush == 0 && startOfPeriod == 0
    {
      this.basename, this.rollSize, this.flushInterval := basename, rollSize, flushInterval;
      count, startOfPeriod, lastRoll, lastFlush := 0, 0, 0, 0;
      file := null;
      rolled := [];
      new;
      RollFile(now, stamp, hostname, pid);
    }

    /**
     * rollFile(): only a clock reading later than the last roll opens a new
     * file; it then becomes the last roll and flush time, and its day the
     * current period.
     */
    method RollFile(now: nat, stamp: string, hostname: string, pid: int)
      requires Valid()
      modifies this`lastRoll, this`lastFlush, this`startOfPeriod, this`file, this`rolled
      ensures Valid()
      ensures RolledAt(now, LogFileName(basename, stamp, hostname, pid))
    {
      var filename := LogFileName(basename, stamp, hostname, pid);
      var start := PeriodStart(now);
      if now > lastRoll {
        lastRoll := now;
        lastFlush := now;
        startOfPeriod := start;
        file := new File(filename);
        rolled := rolled + [filename];
      }
    }

    /**
     * append_unlocked(logline, len): the line goes to the current file;
     * then the file rolls if it has outgrown rollSize; otherwise count_
     * counts, and once past kCheckTimeRoll_ resets and consults the clock
     * (checkNow): a new day rolls, and otherwise more than flushInterval
     * seconds since the last flush flushes. rollNow is the clock reading
     * rollFile takes and stamp its rendering.
     */
    method Append(logline: seq<char>, len: nat, accepts: seq<nat>, checkNow: nat,
                  rollNow: nat, stamp: string, hostname: string, pid: int)
      requires Valid() && file != null && len <= |logline|
      modifies this, file
      ensures Valid() && file != null
      ensures old(file).contents == old(file.contents) + logline[..Accepted(len, accepts)]
      ensures old(file).writtenBytes == old(file.writtenBytes) + len
      ensures old(file.writtenBytes) + len > rollSize ==>
                count == old(count) && RolledAt(rollNow, LogFileName(basename, stamp, hostname, pid))
      ensures old(file.writtenBytes) + len <= rollSize && old(count) <= kCheckTimeRoll ==>
                count == old(count) + 1 && lastRoll == old(lastRoll) && lastFlush == old(lastFlush)
                && startOfPeriod == old(startOfPeriod) && file == old(file) && rolled == old(rolled)
                && file.flushes == old(file.flushes)
      ensures old(file.writtenBytes) + len <= rollSize && old(count) > kCheckTimeRoll ==>
                count == 0 &&
                (PeriodStart(checkNow) != old(startOfPeriod) ==> RolledAt(rollNow, LogFileName(basename, stamp, hostname, pid)))
      ensures old(file.writtenBytes) + len <= rollSize && old(count) > kCheckTimeRoll
              && PeriodStart(checkNow) == old(startOfPeriod) ==>
                file == old(file) && lastRoll == old(lastRoll) && startOfPeriod == old(startOfPeriod) && rolled == old(rolled)
                && (checkNow - old(lastFlush) > flushInterval ==> lastFlush == checkNow && file.flushes == old(file.flushes) + 1)
                && (checkNow - old(lastFlush) <= flushInterval ==> lastFlush == old(lastFlush) && file.flushes == old(file.flushes))
    {
      file.Append(logline, len, accepts);
      if file.writtenBytes > rollSize {
        RollFile(rollNow, stamp, hostname, pid);
      } else {
        if count > kCheckTimeRoll {
          count := 0;
          var thisPeriod := PeriodStart(checkNow);
          if thisPeriod != startOfPeriod {
            RollFile(rollNow, stamp, hostname, pid);
          } else if checkNow - lastFlush > flushInterval {
            lastFlush := checkNow;
            file.Flush();
          }
        } else {
          count := count + 1;
        }
      }
    }

    /** flush(): flushes the current file. */
    method Flush()
      requires Valid() && file != null
      modifies file
      ensures file.flushes == old(file.flushes) + 1
      ensures file.contents == old(file.contents) && file.writtenBytes == old(file.writtenBytes)
    {
      file.Flush();
    }
  }
}
