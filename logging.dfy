// The compile-time half of Logger: the severity levels and their order,
// which LOG_* statements build a record under the global level, the
// basename Logger::SourceFile keeps of __FILE__, and CHECK_NOTNULL.
module Logging {
  import opened Bytes
  import opened LogStreams

  datatype LogLevel = TRACE | DEBUG | INFO | WARN | ERROR | FATAL

  /** NUM_LOG_LEVELS: the enumerator after the last level. */
  const NumLogLevels: nat := 6

  /** The value of a level's enumerator. */
  function Ordinal(l: LogLevel): nat
  {
    match l
    case TRACE => 0
    case DEBUG => 1
    case INFO => 2
    case WARN => 3
    case ERROR => 4
    case FATAL => 5
  }

  /** The level with enumerator n. */
  function LevelOf(n: nat): (l: LogLevel)
    requires n < NumLogLevels
    ensures Ordinal(l) == n
  {
    if n == 0 then TRACE
    else if n == 1 then DEBUG
    else if n == 2 then INFO
    else if n == 3 then WARN
    else if n == 4 then ERROR
    else FATAL
  }

  /**
   * The enumerators are 0 .. NUM_LOG_LEVELS - 1 with no gaps or repeats,
   * in the order TRACE < DEBUG < INFO < WARN < ERROR < FATAL.
   */
  lemma LevelsEnumerated(l: LogLevel, m: LogLevel)
    ensures Ordinal(l) < NumLogLevels && LevelOf(Ordinal(l)) == l
    ensures Ordinal(l) == Ordinal(m) ==> l == m
    ensures Ordinal(TRACE) < Ordinal(DEBUG) < Ordinal(INFO) < Ordinal(WARN) < Ordinal(ERROR) < Ordinal(FATAL)
  {
  }

  /** A level-checked comparison, as `logLevel() <= Logger::INFO` reads. */
  predicate AtMost(l: LogLevel, m: LogLevel)
  {
    Ordinal(l) <= Ordinal(m)
  }

  /** The logging statements of the header. */
  datatype Statement = LogTrace | LogDebug | LogInfo | LogWarn | LogError | LogFatal | LogSysErr | LogSysFatal

  /** The level of the record a statement builds; LOG_SYSERR and LOG_SYSFATAL pass toAbort. */
  function LevelOfStatement(s: Statement): LogLevel
  {
    match s
    case LogTrace => TRACE
    case LogDebug => DEBUG
    case LogInfo => INFO
    case LogWarn => WARN
    case LogError => ERROR
    case LogFatal => FATAL
    case LogSysErr => ERROR
    case LogSysFatal => FATAL
  }

  /**
   * Whether a statement builds a Logger (and so writes a record) under the
   * global level: only the TRACE, DEBUG and INFO macros test it.
   */
  predicate Emits(global: LogLevel, s: Statement)
  {
    match s
    case LogTrace => AtMost(global, TRACE)
    case LogDebug => AtMost(global, DEBUG)
    case LogInfo => AtMost(global, INFO)
    case _ => true
  }

  /**
   * A TRACE, DEBUG or INFO statement is emitted exactly when the global
   * level is at most its own; every other statement is emitted whatever
   * the global level, so setting the level above WARN silences nothing
   * from WARN up.
   */
  lemma EmitsGate(global: LogLevel, s: Statement)
    ensures AtMost(LevelOfStatement(s), INFO) ==> (Emits(global, s) <==> AtMost(global, LevelOfStatement(s)))
    ensures !AtMost(LevelOfStatement(s), INFO) ==> Emits(global, s)
  {
  }

  /** Lowering the global level never silences a statement. */
  lemma EmitsMonotone(global: LogLevel, lower: LogLevel, s: Statement)
    requires AtMost(lower, global) && Emits(global, s)
    ensures Emits(lower, s)
  {
  }

  /** The last index of c in t, as strrchr finds it. */
  function LastIndex(t: string, c: char): (r: Option<nat>)
    ensures r.Some? ==> r.value < |t| && t[r.value] == c
    ensures r.Some? ==> forall k :: r.value < k < |t| ==> t[k] != c
    ensures r.None? ==> forall k :: 0 <= k < |t| ==> t[k] != c
  {
    if t == [] then None
    else if t[|t| - 1] == c then Some(|t| - 1)
    else LastIndex(t[..|t| - 1], c)
  }

  /**
   * A SourceFile points data_ into the name it was built from: data_ is the
   * name's start plus offset, and size_ characters are kept.
   */
  datatype SourceFile = SourceFile(offset: nat, size: int)

  /** Where the basename of a NUL-terminated name starts: just past its last '/', or at 0. */
  function BasenameStart(s: string): (i: nat)
    requires '\0' in s
    ensures i <= CStrLen(s)
  {
    match LastIndex(s[..CStrLen(s)], '/')
    case Some(k) => k + 1
    case None => 0
  }

  /** SourceFile(const char (&arr)[N]): size_ is N - 1 less the skipped prefix. */
  function FromArray(arr: string): SourceFile
    requires '\0' in arr
  {
    var start := BasenameStart(arr);
    SourceFile(start, (|arr| - 1) - start)
  }

  /** SourceFile(const char* filename): size_ is strlen of what remains. */
  function FromCString(filename: string): SourceFile
    requires '\0' in filename
  {
    var start := BasenameStart(filename);
    SourceFile(start, CStrLen(filename[start..]))
  }

  /** The characters a SourceFile keeps. */
  function Kept(name: string, f: SourceFile): string
    requires f.offset as int + f.size <= |name| && f.size >= 0
  {
    name[f.offset..f.offset as int + f.size]
  }

  /** The text after the last '/' of a path, or the whole path when there is none. */
  function Basename(name: string): string
  {
    match LastIndex(name, '/')
    case Some(k) => name[k + 1..]
    case None => name
  }

  lemma CStrLenOfTerminated(name: string)
    requires '\0' !in name
    ensures CStrLen(name + "\0") == |name|
    decreases |name|
  {
    if name != [] {
      assert (name + "\0")[1..] == name[1..] + "\0";
      CStrLenOfTerminated(name[1..]);
    }
  }

  /** A basename holds no '/'. */
  lemma BasenameHasNoSlash(name: string)
    ensures '/' !in Basename(name)
  {
    match LastIndex(name, '/') {
      case Some(k) =>
        var b := name[k + 1..];
        forall i | 0 <= i < |b|
          ensures b[i] != '/'
        {
          assert b[i] == name[k + 1 + i];
        }
      case None =>
    }
  }

  /**
   * For a string literal (no NUL before the terminator), both constructors
   * keep exactly the basename, and the whole name when there is no '/'.
   */
  lemma SourceFileBasename(name: string)
    requires '\0' !in name
    ensures FromArray(name + "\0") == FromCString(name + "\0")
    ensures var f := FromArray(name + "\0");
      f.offset as int + f.size == |name| && f.size >= 0 && Kept(name, f) == Basename(name)
    ensures '/' !in name ==> FromArray(name + "\0") == SourceFile(0, |name|)
  {
    var start := LiteralBasenameStart(name);
    assert (name + "\0")[start..] == name[start..] + "\0";
    CStrLenOfTerminated(name[start..]);
    if '/' !in name {
      assert LastIndex(name, '/') == None;
    }
  }

  /** For a literal, the scan for '/' covers exactly the name. */
  lemma LiteralBasenameStart(name: string) returns (start: nat)
    requires '\0' !in name
    ensures start == BasenameStart(name + "\0") && start <= |name|
    ensures Basename(name) == name[start..]
    ensures LastIndex(name, '/') == None ==> start == 0
  {
    var s := name + "\0";
    CStrLenOfTerminated(name);
    assert s[..CStrLen(s)] == name;
    start := BasenameStart(s);
  }

  /** A record a Logger writes: its level, the source line and the streamed text. */
  datatype Record = Record(level: LogLevel, line: int, text: string)

  /**
   * CheckNotNull(file, line, names, ptr), with a null pointer as 0: the
   * pointer comes back unchanged, and a null one first writes a FATAL
   * record holding names.
   */
  function CheckNotNull(line: int, names: string, ptr: nat): (r: (nat, seq<Record>))
  {
    (ptr, if ptr == 0 then [Record(FATAL, line, names)] else [])
  }

  lemma CheckNotNullIdentity(line: int, names: string, ptr: nat)
    ensures CheckNotNull(line, names, ptr).0 == ptr
    ensures CheckNotNull(line, names, ptr).1 != [] <==> ptr == 0
    ensures forall r :: r in CheckNotNull(line, names, ptr).1 ==> r.level == FATAL && r.text == names
  {
  }
}
