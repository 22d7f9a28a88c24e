/** arduino/Logger.h: the sensor firmware's level-gated logger. Everything it
    prints to the serial port is modelled as the text appended to `output`. */
module ArduinoLogger {
  import opened Text

  /** The levels of `enum LogLevel { ERROR, MAIN, DEBUG }`, least verbose first. */
  const LevelError: int := 0
  const LevelMain: int := 1
  const LevelDebug: int := 2

  /** The values `static_cast<LogLevel>` is defined for: the smallest bit
      field holding the enumerators is two bits wide. */
  predicate IsLevel(level: int) { 0 <= level <= 3 }

  /** `Serial.println` ends a line with a carriage return and a line feed. */
  const Newline: string := "\r\n"

  /** A complete log line, `[<level name>] <message>` and the line end. */
  function Line(name: string, message: string): (l: string)
    ensures |l| == |name| + |message| + 5
    ensures l[0] == '[' && l[|l| - 2..] == Newline
  {
    "[" + name + "] " + message + Newline
  }

  /** The level name can be read back from a line, up to the first `]`. */
  lemma LineNamesLevel(name: string, message: string)
    requires ']' !in name
    ensures TakeUntil(Line(name, message)[1..], ']') == name
  {
    var rest := Line(name, message)[1..];
    assert rest == name + ("] " + message + Newline);
    TakeUntilPrefix(name, "] " + message + Newline, ']');
  }

  lemma {:induction false} TakeUntilPrefix(a: string, b: string, c: char)
    requires c !in a && |b| > 0 && b[0] == c
    ensures TakeUntil(a + b, c) == a
  {
    if a == [] {
      assert a + b == b;
    } else {
      assert (a + b)[1..] == a[1..] + b;
      TakeUntilPrefix(a[1..], b, c);
    }
  }

  /** The arguments of `printArgs(first, rest...)` are printed one after
      another with nothing between them, each whole and in order: argument k
      starts where the arguments before it end. */
  lemma {:induction false} PrintedInOrder(args: seq<string>, k: nat)
    requires k < |args|
    ensures var before := |Join(args[..k])|;
            before + |args[k]| <= |Join(args)| && Join(args)[before..before + |args[k]|] == args[k]
  {
    assert args == args[..k] + args[k..];
    JoinAppend(args[..k], args[k..]);
    assert Join(args[k..]) == args[k] + Join(args[k + 1..]);
  }

  /** What a call gated by `currentLevel >= threshold` prints: the whole line
      or nothing. */
  function Gated(level: int, threshold: int, name: string, message: string): (out: string)
    ensures out != [] <==> level >= threshold
    ensures level >= threshold ==> out == Line(name, message)
  {
    if level >= threshold then Line(name, message) else []
  }

  /** `error` prints at every level. */
  lemma ErrorAlwaysPrints(level: int, message: string)
    requires IsLevel(level)
    ensures Gated(level, LevelError, "ERROR", message) == "[ERROR] " + message + Newline
  {
  }

  /** `mainOutput` prints exactly at MAIN and at DEBUG (and at the unnamed
      level 3 above it). */
  lemma MainPrintsFromMain(level: int, message: string)
    requires IsLevel(level)
    ensures Gated(level, LevelMain, "MAIN", message) != [] <==> level == LevelMain || level == LevelDebug || level == 3
  {
  }

  /** `debug` prints exactly at DEBUG (and at level 3). */
  lemma DebugPrintsOnlyAtDebug(level: int, args: seq<string>)
    requires IsLevel(level)
    ensures Gated(level, LevelDebug, "DEBUG", Join(args)) != [] <==> level == LevelDebug || level == 3
  {
  }

  class Logger {
    var currentLevel: int
    /** Everything printed to the serial port so far. */
    var output: string

    ghost predicate Valid()
      reads this
    {
      IsLevel(currentLevel)
    }

    /** A logger starts at DEBUG, having printed nothing. */
    constructor()
      ensures Valid() && currentLevel == LevelDebug && output == []
    {
      currentLevel := LevelDebug;
      output := [];
    }

    /** `Serial.print(s)` */
    method Print(s: string)
      modifies this
      ensures output == old(output) + s && currentLevel == old(currentLevel)
    {
      output := output + s;
    }

    /** `Serial.println(s)` */
    method Println(s: string)
      modifies this
      ensures output == old(output) + s + Newline && currentLevel == old(currentLevel)
    {
      output := output + s + Newline;
    }

    /** `setLogLevel(level)`: changes the level and prints nothing. */
    method SetLogLevel(level: int)
      requires IsLevel(level)
      modifies this
      ensures Valid() && currentLevel == level && output == old(output)
    {
      currentLevel := level;
    }

    /** `printPrefix(levelName)` */
    method PrintPrefix(name: string)
      modifies this
      ensures output == old(output) + "[" + name + "] " && currentLevel == old(currentLevel)
    {
      Print("[");
      Print(name);
      Print("] ");
    }

    /** `log(level, message)`: one whole line. */
    method Log(name: string, message: string)
      modifies this
      ensures output == old(output) + Line(name, message) && currentLevel == old(currentLevel)
    {
      PrintPrefix(name);
      Println(message);
    }

    /** `error(message)` */
    method Error(message: string)
      requires Valid()
      modifies this
      ensures output == old(output) + Gated(currentLevel, LevelError, "ERROR", message)
      ensures currentLevel == old(currentLevel)
    {
      if currentLevel >= LevelError {
        Log("ERROR", message);
      }
    }

    /** `mainOutput(message)` */
    method MainOutput(message: string)
      requires Valid()
      modifies this
      ensures output == old(output) + Gated(currentLevel, LevelMain, "MAIN", message)
      ensures currentLevel == old(currentLevel)
    {
      if currentLevel >= LevelMain {
        Log("MAIN", message);
      }
    }

    /** `printArgs(first, rest...)`, the pack given as the printed text of
        each argument; a call with no argument does not compile. */
    method PrintArgs(args: seq<string>)
      requires |args| > 0
      modifies this
      ensures output == old(output) + Join(args) && currentLevel == old(currentLevel)
      decreases |args|
    {
      Print(args[0]);
      if |args| > 1 {
        PrintArgs(args[1..]);
      }
    }

    /** `debug(args...)`: the prefix, every argument, then the line end. */
    method Debug(args: seq<string>)
      requires Valid() && |args| > 0
      modifies this
      ensures output == old(output) + Gated(currentLevel, LevelDebug, "DEBUG", Join(args))
      ensures currentLevel == old(currentLevel)
    {
      if currentLevel >= LevelDebug {
        PrintPrefix("DEBUG");
        PrintArgs(args);
        Println("");
      }
    }
  }
}
