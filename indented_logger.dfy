/** IndentedLogger: log lines indented four spaces per open log block. The
    level lives in an IndentLevel object. In the source it is a class
    attribute, one value per thread, shared by every logger; here loggers
    share it only when the caller passes the same IndentLevel to each of
    them. What the wrapped logger emits is kept as a ghost sequence of
    lines. */
module Logging {

  /** '    ' * level: four spaces per level, and nothing for a level of zero
      or below, as string repetition by a non-positive count gives "". */
  function Indent(level: int): (s: string)
    ensures |s| == if level <= 0 then 0 else 4 * level
    ensures forall i :: 0 <= i < |s| ==> s[i] == ' '
    decreases level
  {
    if level <= 0 then "" else "    " + Indent(level - 1)
  }

  /** One level deeper is the same indent followed by four more spaces. */
  lemma {:induction false} IndentDeeper(level: int)
    requires level >= 0
    ensures Indent(level + 1) == Indent(level) + "    "
    decreases level
  {
    if level > 0 {
      IndentDeeper(level - 1);
      assert Indent(level + 1) == "    " + Indent(level);
      assert Indent(level) == "    " + Indent(level - 1);
    }
  }

  /** The parameters of a block as name=repr pairs joined by ", ". Each
      value arrives already rendered by repr. */
  function ParamStr(params: seq<(string, string)>): (r: string)
    ensures r == "" <==> params == []
    ensures params != [] ==>
      var last := params[|params| - 1];
      EndsWith(r, last.0 + "=" + last.1)
    ensures |params| > 1 ==> StartsWith(r, ParamStr(params[..|params| - 1]) + ", ")
  {
    if params == [] then ""
    else if |params| == 1 then params[0].0 + "=" + params[0].1
    else
      var last := params[|params| - 1];
      ParamStr(params[..|params| - 1]) + ", " + last.0 + "=" + last.1
  }

  predicate StartsWith(s: string, prefix: string)
  {
    |prefix| <= |s| && s[..|prefix|] == prefix
  }

  predicate EndsWith(s: string, suffix: string)
  {
    |suffix| <= |s| && s[|s| - |suffix|..] == suffix
  }

  /** The line __enter__ logs: the indent of the level, the entering arrow,
      and the call with its parameters in parentheses. */
  function EnteringLine(level: int, methodName: string, params: seq<(string, string)>): (line: string)
    ensures StartsWith(line, Indent(level) + "\U{21B3} Entering " + methodName + "(")
    ensures EndsWith(line, ParamStr(params) + ")")
  {
    Indent(level) + "\U{21B3} Entering " + methodName + "(" + ParamStr(params) + ")"
  }

  /** The line __exit__ logs: the indent of the level, the exiting arrow and
      the method name. */
  function ExitingLine(level: int, methodName: string): (line: string)
    ensures StartsWith(line, Indent(level) + "\U{21B2} Exiting ")
    ensures EndsWith(line, methodName)
  {
    Indent(level) + "\U{21B2} Exiting " + methodName
  }

  /** A block entered inside another logs its lines four spaces further in. */
  lemma NestedLinesIndented(level: int, methodName: string, params: seq<(string, string)>)
    requires level >= 0
    ensures EnteringLine(level + 1, methodName, params) == "    " + EnteringLine(level, methodName, params)
    ensures ExitingLine(level + 1, methodName) == "    " + ExitingLine(level, methodName)
  {
    assert Indent(level + 1) == "    " + Indent(level);
  }

  /** The wrapped logging.Logger: only the lines it is asked to log at info
      level are recorded. */
  class LogSink {
    ghost var lines: seq<string>

    constructor ()
      ensures lines == []
    {
      lines := [];
    }
  }

  /** The per-thread indent level; hasValue says whether the attribute has
      been set on it yet. */
  class IndentLevel {
    var value: int
    var hasValue: bool

    constructor ()
      ensures !hasValue
    {
      hasValue := false;
    }
  }

  class IndentedLogger {
    const logger: LogSink
    const indentLevel: IndentLevel

    ghost predicate Valid()
      reads this, indentLevel
    {
      indentLevel.hasValue
    }

    /** The first logger sets the shared level to 0; every later one leaves
        it as it finds it. */
    constructor (logger: LogSink, indentLevel: IndentLevel)
      modifies indentLevel
      ensures this.logger == logger && this.indentLevel == indentLevel
      ensures Valid()
      ensures indentLevel.value == if old(indentLevel.hasValue) then old(indentLevel.value) else 0
    {
      this.logger := logger;
      this.indentLevel := indentLevel;
      new;
      if !indentLevel.hasValue {
        indentLevel.value := 0;
        indentLevel.hasValue := true;
      }
    }

    /** info: the message at the current indent; the level is untouched. */
    method Info(message: string)
      requires Valid()
      modifies logger
      ensures logger.lines == old(logger.lines) + [Indent(indentLevel.value) + message]
    {
      var indent := Indent(indentLevel.value);
      logger.lines := logger.lines + [indent + message];
    }

    /** log_block: a block for the given method and parameters, not yet entered. */
    method LogBlock(methodName: string, params: seq<(string, string)>) returns (b: Block)
      ensures fresh(b)
      ensures b.outer == this && b.methodName == methodName && b.params == params
    {
      b := new Block(this, methodName, params);
    }
  }

  /** IndentedLogger.LogBlock: the context manager log_block returns. */
  class Block {
    const outer: IndentedLogger
    const methodName: string
    const params: seq<(string, string)>

    constructor (outer: IndentedLogger, methodName: string, params: seq<(string, string)>)
      ensures this.outer == outer && this.methodName == methodName && this.params == params
    {
      this.outer := outer;
      this.methodName := methodName;
      this.params := params;
    }

    /** __enter__: log at the current indent, then go one level deeper. */
    method Enter()
      requires outer.Valid()
      modifies outer.indentLevel`value, outer.logger
      ensures outer.Valid()
      ensures outer.indentLevel.value == old(outer.indentLevel.value) + 1
      ensures outer.logger.lines
           == old(outer.logger.lines) + [EnteringLine(old(outer.indentLevel.value), methodName, params)]
    {
      outer.logger.lines := outer.logger.lines
        + [EnteringLine(outer.indentLevel.value, methodName, params)];
      outer.indentLevel.value := outer.indentLevel.value + 1;
    }

    /** __exit__: go one level back, then log at that indent. */
    method Exit()
      requires outer.Valid()
      modifies outer.indentLevel`value, outer.logger
      ensures outer.Valid()
      ensures outer.indentLevel.value == old(outer.indentLevel.value) - 1
      ensures outer.logger.lines
           == old(outer.logger.lines) + [ExitingLine(old(outer.indentLevel.value) - 1, methodName)]
    {
      outer.indentLevel.value := outer.indentLevel.value - 1;
      outer.logger.lines := outer.logger.lines + [ExitingLine(outer.indentLevel.value, methodName)];
    }
  }

  /** `with logger.log_block(name, **params): logger.info(message)`: the
      entering and exiting lines carry the same indent, the message inside is
      logged one level deeper, and the level is back where it was. */
  method LoggedBlock(log: IndentedLogger, methodName: string, params: seq<(string, string)>, message: string)
    requires log.Valid()
    modifies log.indentLevel`value, log.logger
    ensures log.Valid()
    ensures log.indentLevel.value == old(log.indentLevel.value)
    ensures log.logger.lines == old(log.logger.lines) + [
        EnteringLine(old(log.indentLevel.value), methodName, params),
        Indent(old(log.indentLevel.value) + 1) + message,
        ExitingLine(old(log.indentLevel.value), methodName)]
  {
    var b := log.LogBlock(methodName, params);
    b.Enter();
    log.Info(message);
    b.Exit();
  }
}
