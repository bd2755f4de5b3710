/**
 * The pure part of the broadcaster's log handling: splitting a Tor log line
 * on `|`, the three-segment filter of `broadcastLogMessage`, and the message
 * that `broadcastServiceLifecycleEvent` builds.
 */
module LogMessages {
  import opened Wrappers

  const Separator: char := '|'

  /** How many times the separator occurs in `s`. */
  function SeparatorCount(s: string): nat
  {
    if s == [] then 0
    else (if s[0] == Separator then 1 else 0) + SeparatorCount(s[1..])
  }

  /**
   * Kotlin's `s.split("|")`: the pieces between consecutive separators, empty
   * pieces included, so that the empty string gives one empty segment and a
   * trailing separator gives a trailing empty segment.
   */
  function Split(s: string): (segments: seq<string>)
    ensures |segments| == SeparatorCount(s) + 1
    ensures forall i :: 0 <= i < |segments| ==> Separator !in segments[i]
  {
    if s == [] then [""]
    else
      var rest := Split(s[1..]);
      if s[0] == Separator then [""] + rest
      else [[s[0]] + rest[0]] + rest[1..]
  }

  /** The segments put back together with a separator between each two: the inverse of Split. */
  function Join(segments: seq<string>): string
    requires segments != []
  {
    if |segments| == 1 then segments[0]
    else segments[0] + [Separator] + Join(segments[1..])
  }

  /** Joining two non-empty lists of segments puts one separator between them. */
  lemma {:induction false} JoinAppend(a: seq<string>, b: seq<string>)
    requires a != [] && b != []
    ensures Join(a + b) == Join(a) + [Separator] + Join(b)
  {
    if |a| == 1 {
      assert (a + b)[1..] == b;
    } else {
      assert (a + b)[1..] == a[1..] + b;
      JoinAppend(a[1..], b);
    }
  }

  /** Splitting, then joining, gives back the string. */
  lemma {:induction false} SplitThenJoin(s: string)
    ensures Join(Split(s)) == s
  {
    if s != [] {
      var rest := Split(s[1..]);
      SplitThenJoin(s[1..]);
      if s[0] == Separator {
        assert ([""] + rest)[1..] == rest;
      } else {
        var segments := [[s[0]] + rest[0]] + rest[1..];
        if |rest| == 1 {
          assert [s[0]] + s[1..] == s;
          assert segments == [s];
        } else {
          assert segments[1..] == rest[1..];
          assert Join(rest) == rest[0] + [Separator] + Join(rest[1..]);
        }
      }
    }
  }

  /** A segment free of separators followed by one separator is split off as a segment of its own. */
  lemma {:induction false} SplitAfterSegment(a: string, tail: string)
    requires Separator !in a
    ensures Split(a + [Separator] + tail) == [a] + Split(tail)
  {
    if a == [] {
      assert a + [Separator] + tail == [Separator] + tail;
      assert ([Separator] + tail)[1..] == tail;
    } else {
      var s := a + [Separator] + tail;
      assert s[0] == a[0];
      assert s[1..] == a[1..] + [Separator] + tail;
      SplitAfterSegment(a[1..], tail);
      assert [a[0]] + a[1..] == a;
    }
  }

  /** A string without separators is one segment. */
  lemma {:induction false} SplitWithoutSeparator(s: string)
    requires Separator !in s
    ensures Split(s) == [s]
  {
    if s != [] {
      SplitWithoutSeparator(s[1..]);
      assert [s[0]] + s[1..] == s;
    }
  }

  /** Joining segments free of separators, then splitting, gives back the segments. */
  lemma {:induction false} JoinThenSplit(segments: seq<string>)
    requires segments != []
    requires forall i :: 0 <= i < |segments| ==> Separator !in segments[i]
    ensures Split(Join(segments)) == segments
  {
    if |segments| == 1 {
      SplitWithoutSeparator(segments[0]);
    } else {
      JoinThenSplit(segments[1..]);
      SplitAfterSegment(segments[0], Join(segments[1..]));
      assert [segments[0]] + segments[1..] == segments;
    }
  }

  /** The three leading segments of a log line as `broadcastLogMessage` hands them to the log. */
  datatype LogLine = LogLine(level: string, origin: string, text: string)

  /**
   * `broadcastLogMessage`'s filter: nothing for a null or empty message or for
   * one with fewer than three segments, otherwise its first three segments.
   */
  function FilterLogMessage(logMessage: Option<string>): (line: Option<LogLine>)
    ensures line.Some? ==> logMessage.Some? && logMessage.value != ""
    ensures line.Some? ==> Separator !in line.value.level && Separator !in line.value.origin
                           && Separator !in line.value.text
  {
    match logMessage
    case None => None
    case Some(m) =>
      if m == "" then None
      else
        var segments := Split(m);
        if |segments| < 3 then None
        else Some(LogLine(segments[0], segments[1], segments[2]))
  }

  /** What the log receives for one message: zero or one line. */
  function LogOutput(logMessage: Option<string>): (out: seq<LogLine>)
    ensures |out| <= 1
  {
    match FilterLogMessage(logMessage)
    case None => []
    case Some(line) => [line]
  }

  /** A message is logged exactly when it is present and holds at least two separators. */
  lemma FilterPassesIff(logMessage: Option<string>)
    ensures FilterLogMessage(logMessage).Some?
            <==> logMessage.Some? && SeparatorCount(logMessage.value) >= 2
  {
  }

  /**
   * Any message made of three or more separator-free segments is logged as
   * exactly its first three segments; the further ones are ignored.
   */
  lemma FilterKeepsFirstThree(segments: seq<string>)
    requires |segments| >= 3
    requires forall i :: 0 <= i < |segments| ==> Separator !in segments[i]
    ensures FilterLogMessage(Some(Join(segments))) == Some(LogLine(segments[0], segments[1], segments[2]))
  {
    JoinThenSplit(segments);
    SeparatorInJoin(segments);
    FilterOfSegments(Join(segments));
  }

  /** A non-empty message with three or more segments is logged as its first three. */
  lemma FilterOfSegments(m: string)
    requires m != "" && |Split(m)| >= 3
    ensures FilterLogMessage(Some(m)) == Some(LogLine(Split(m)[0], Split(m)[1], Split(m)[2]))
  {
  }

  /** Joining two or more segments puts a separator in. */
  lemma SeparatorInJoin(segments: seq<string>)
    requires |segments| > 1
    ensures Join(segments) != ""
  {
    assert Join(segments) == segments[0] + [Separator] + Join(segments[1..]);
  }

  /**
   * Conversely, a logged line is read off the start of the message: the message
   * begins with its three segments joined by separators, and either ends there
   * or continues with a further separator.
   */
  lemma FilterReadsPrefix(m: string)
    requires FilterLogMessage(Some(m)).Some?
    ensures var line := FilterLogMessage(Some(m)).value;
            var prefix := line.level + [Separator] + line.origin + [Separator] + line.text;
            |prefix| <= |m| && m[..|prefix|] == prefix
            && (|prefix| < |m| ==> m[|prefix|] == Separator)
  {
    var segments := Split(m);
    var line := FilterLogMessage(Some(m)).value;
    var prefix := line.level + [Separator] + line.origin + [Separator] + line.text;
    SplitThenJoin(m);
    assert Join(segments[..3]) == prefix by {
      var t := segments[..3];
      assert t[1..][1..] == [segments[2]];
      assert Join(t[1..]) == segments[1] + [Separator] + segments[2];
      assert Join(t) == segments[0] + [Separator] + (segments[1] + [Separator] + segments[2]);
    }
    if |segments| == 3 {
      assert segments[..3] == segments;
    } else {
      JoinAppend(segments[..3], segments[3..]);
      assert segments[..3] + segments[3..] == segments;
      assert m == prefix + ([Separator] + Join(segments[3..]));
    }
  }

  /** The decimal digit for `d`. */
  function DigitChar(d: nat): char
    requires d < 10
  {
    "0123456789"[d]
  }

  /** The value of a decimal digit character. */
  function DigitValue(c: char): nat
  {
    if '0' <= c <= '9' then (c as int - '0' as int) as nat else 0
  }

  /** The decimal digits of `n`, most significant first, without leading zeros. */
  function Digits(n: nat): (s: string)
    ensures s != [] && forall i :: 0 <= i < |s| ==> '0' <= s[i] <= '9'
    ensures s[0] == '0' <==> n == 0
    ensures |s| > 1 ==> s[0] != '0'
  {
    if n < 10 then [DigitChar(n)] else Digits(n / 10) + [DigitChar(n % 10)]
  }

  /** The number a string of decimal digits denotes. */
  function DecimalValue(s: string): nat
  {
    if s == [] then 0 else DecimalValue(s[..|s| - 1]) * 10 + DigitValue(s[|s| - 1])
  }

  /** Reading the digits back gives the number. */
  lemma {:induction false} DigitsRoundTrip(n: nat)
    ensures DecimalValue(Digits(n)) == n
  {
    if n >= 10 {
      DigitsRoundTrip(n / 10);
      var s := Digits(n);
      assert s[..|s| - 1] == Digits(n / 10);
    }
  }

  /** Kotlin's rendering of an `Int` in a string template: a minus sign for negative values, then the digits. */
  function IntToString(n: int): (s: string)
    ensures Separator !in s
    ensures n < 0 <==> (s != [] && s[0] == '-')
  {
    if n < 0 then "-" + Digits(-n) else Digits(n)
  }

  /** Reading the rendered integer back gives the integer. */
  lemma IntToStringRoundTrip(n: int)
    ensures var s := IntToString(n);
            n == if s[0] == '-' then -(DecimalValue(s[1..]) as int) else DecimalValue(s) as int
  {
    DigitsRoundTrip(if n < 0 then -n else n);
    if n < 0 {
      assert IntToString(n)[1..] == Digits(-n);
    }
  }

  /** Kotlin's 32-bit `Int`. */
  newtype Int32 = x: int | -0x8000_0000 <= x < 0x8000_0000

  /** The fixed start of every lifecycle message: level NOTICE, origin TorService. */
  const LifecycleHeader: string := "NOTICE|TorService|"

  /** The third segment of a lifecycle message, as long as the event text holds no separator. */
  function LifecycleText(event: string, hashCode: Int32): string
  {
    "LCE=" + event + " - HashCode=" + IntToString(hashCode as int)
  }

  /** The log message `broadcastServiceLifecycleEvent` forwards for a lifecycle event. */
  function LifecycleMessage(event: string, hashCode: Int32): (m: string)
    ensures var segments := Split(m);
            |segments| >= 3 && segments[0] == "NOTICE" && segments[1] == "TorService"
  {
    LifecycleSplit(LifecycleText(event, hashCode));
    LifecycleHeader + LifecycleText(event, hashCode)
  }

  /**
   * Every lifecycle event is logged, as a NOTICE from TorService; its third
   * segment is the event text with the hash code, cut at the first separator
   * the event text may hold.
   */
  lemma LifecycleEventLogged(event: string, hashCode: Int32)
    ensures var line := FilterLogMessage(Some(LifecycleMessage(event, hashCode)));
            line.Some? && line.value.level == "NOTICE" && line.value.origin == "TorService"
            && line.value.text == Split(LifecycleText(event, hashCode))[0]
            && (Separator !in event ==> line.value.text == LifecycleText(event, hashCode))
  {
    var text := LifecycleText(event, hashCode);
    LifecycleSplit(text);
    if Separator !in event {
      assert Separator !in text;
      SplitWithoutSeparator(text);
    }
  }

  /** Two separator-free segments, each followed by a separator, are split off in front of the rest. */
  lemma SplitAfterTwoSegments(a: string, b: string, tail: string)
    requires Separator !in a && Separator !in b
    ensures Split(a + [Separator] + b + [Separator] + tail) == [a, b] + Split(tail)
  {
    assert a + [Separator] + b + [Separator] + tail == a + [Separator] + (b + [Separator] + tail);
    SplitAfterSegment(a, b + [Separator] + tail);
    SplitAfterSegment(b, tail);
  }

  /** A lifecycle message splits into NOTICE, TorService and the segments of the rest. */
  lemma LifecycleSplit(text: string)
    ensures Split(LifecycleHeader + text) == ["NOTICE", "TorService"] + Split(text)
  {
    assert LifecycleHeader == "NOTICE" + [Separator] + "TorService" + [Separator];
    SplitAfterTwoSegments("NOTICE", "TorService", text);
  }
}
