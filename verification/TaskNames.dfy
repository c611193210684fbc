/**
  The two name codecs of the scheduler storages. Both decode with cutset trims
  where the removal of a prefix or suffix is meant; the lemmas give the exact
  conditions under which they are inverses of the encoders.
*/
module TaskNames {
  import opened Strings
  import opened Timestamps

  // ---------- file names ----------

  /** The file name under which `Store` keeps a task (pkg/scheduler/file.go). */
  function FileName(name: string, time: string): string {
    name + "_" + time + ".task"
  }

  /** The task name that `Retrieve` reads off a file name. */
  function FileTask(file: string): string {
    Split(file, '_')[0]
  }

  /** The time text that `Retrieve` reads off a file name. */
  function FileTime(file: string): string {
    TrimRight(TrimLeft(file, FileTask(file) + "_"), ".task")
  }

  /** The instant from which the file is due, or nothing when its time does not parse. */
  function FileDue(file: string): Option<int> {
    match Parse(FileTime(file))
    case Some(t) => Some(Instant(t))
    case None => None
  }

  /** The part of a task name in front of its first `_`. */
  function Head(name: string): string {
    Split(name, '_')[0]
  }

  /** The name cannot be confused with what follows it in the file name. */
  predicate Decodable(name: string, t: Stamp) {
    '_' !in name && Format(t)[0] !in name
  }

  lemma {:induction false} HeadIsPrefix(s: string)
    ensures '_' !in Head(s) && Head(s) <= s
    ensures '_' !in s ==> Head(s) == s
    ensures '_' in s ==> |Head(s)| < |s| && s[|Head(s)|] == '_'
  {
    if s != "" && s[0] != '_' { HeadIsPrefix(s[1..]); }
  }

  lemma {:induction false} HeadBeforeMark(a: string, b: string)
    ensures Head(a + "_" + b) == Head(a)
  {
    var s := a + "_" + b;
    if a == "" {
      assert s[1..] == b;
    } else {
      assert s[1..] == a[1..] + "_" + b;
      HeadBeforeMark(a[1..], b);
    }
  }

  /** The suffix comes off, and nothing of a printed time does. */
  lemma SuffixComesOff(s: string)
    requires s != "" && s[|s| - 1] !in ".task"
    ensures TrimRight(s + ".task", ".task") == s
  {
    TrimRightThrough(s, ".task", ".task");
  }

  /**
    What the left trim leaves of `name_time.task`: the time when the name is drawn
    from the cutset and the time does not start with a cutset character; else
    something that starts inside the name or behind the start of the time.
  */
  lemma TrimmedName(name: string, time: string) returns (k: nat)
    requires time != ""
    ensures var s := FileName(name, time); k <= |s| && TrimLeft(s, Head(name) + "_") == s[k..]
    ensures k == |name| + 1 <==>
            (forall c | c in name :: c in Head(name) + "_") && time[0] !in Head(name) + "_"
    ensures k < |name| + 1 ==> k < |name|
  {
    var s, cutset := FileName(name, time), Head(name) + "_";
    k := TrimLeftSuffix(s, cutset);
    assert s[|name|] == '_' && s[|name| + 1] == time[0];
    assert forall i | 0 <= i < |name| :: s[i] == name[i];
    if forall c | c in name :: c in cutset {
      assert k >= |name| + 1;
    } else {
      var c :| c in name && c !in cutset;
      var i :| 0 <= i < |name| && name[i] == c;
      assert s[i] !in cutset;
    }
  }

  /** A proper suffix of a printed time does not parse: its `T` is in the wrong place. */
  lemma SuffixDoesNotParse(t: Stamp, k: nat)
    requires Valid(t) && 0 < k <= |Format(t)|
    ensures Parse(Format(t)[k..]).None?
  {
    hide Format, ReadFields;
    FormatShape(t);
    var s := Format(t)[k..];
    assert |s| > 10 ==> s[10] == Format(t)[k + 10];
    if Parse(s).Some? { FormatShape(Parse(s).value); }
  }

  /** What `Retrieve` makes of the time of a file that `Store` wrote. */
  lemma DecodedTime(name: string, t: Stamp)
    requires Valid(t)
    ensures var time := Format(t);
      var kept := (forall c | c in name :: c in Head(name) + "_") && time[0] !in Head(name) + "_";
      && (kept ==> FileTime(FileName(name, time)) == time)
      && (!kept ==> FileTime(FileName(name, time)) != time && Parse(FileTime(FileName(name, time))).None?)
  {
    hide Format, Parse, TrimLeft, TrimRight;
    var time := Format(t);
    var s := FileName(name, time);
    FormatShape(t);
    HeadBeforeMark(name, time + ".task");
    assert s == name + "_" + (time + ".task");
    var k := TrimmedName(name, time);
    var n := |name| + 1;
    if k == n {
      assert s[k..] == time + ".task";
      SuffixComesOff(time);
    } else if k < n {
      var rest := s[k..n] + time;
      assert s[k..] == rest + ".task";
      assert rest[|rest| - 1] == time[|time| - 1];
      SuffixComesOff(rest);
      assert rest[n - 1 - k] == '_';
      if Parse(rest).Some? { FormatShape(Parse(rest).value); }
    } else if k < n + |time| {
      var rest := time[k - n..];
      assert s[k..] == rest + ".task";
      assert rest[|rest| - 1] == time[|time| - 1];
      SuffixComesOff(rest);
      SuffixDoesNotParse(t, k - n);
    } else {
      ShortRest(s[k..]);
    }
  }

  lemma ShortRest(s: string)
    requires |s| < 19
    ensures |TrimRight(s, ".task")| < 19
    ensures Parse(TrimRight(s, ".task")).None?
  {
    if s != "" { ShortRest(s[..|s| - 1]); }
  }

  /**
    A stored file decodes to its own task name and time if and only if the name has
    no `_` and does not contain the first character of the printed time.
  */
  lemma FileCodecExact(name: string, t: Stamp)
    requires Valid(t)
    ensures var file := FileName(name, Format(t));
      FileTask(file) == name && FileTime(file) == Format(t) <==> Decodable(name, t)
  {
    hide Format, Parse;
    var time := Format(t);
    FormatShape(t);
    HeadBeforeMark(name, time + ".task");
    assert FileName(name, time) == name + "_" + (time + ".task");
    HeadIsPrefix(name);
    DecodedTime(name, t);
  }

  /**
    The name has a character that its head and `_` do not supply, or its head contains
    the first character of the printed time: then the trim does not leave the time.
  */
  predicate LosesTime(name: string, t: Stamp) {
    (exists c | c in name :: c !in Head(name) + "_") || Format(t)[0] in Head(name)
  }

  /**
    A stored file is thrown away unread if and only if its name has a character that
    its head (the part in front of the first `_`) and `_` do not supply, or the head
    contains the first character of the printed time. A name with `_` can thus also
    survive, and then runs under its head at the right time.
  */
  lemma FileDiscardExact(name: string, t: Stamp)
    requires Valid(t)
    ensures var file := FileName(name, Format(t));
      && FileTask(file) == Head(name)
      && FileDue(file) == (if LosesTime(name, t) then None else Some(Instant(t)))
      && (Decodable(name, t) ==> !LosesTime(name, t))
  {
    hide Format, Parse;
    FormatShape(t);
    HeadBeforeMark(name, Format(t) + ".task");
    assert FileName(name, Format(t)) == name + "_" + (Format(t) + ".task");
    DecodedTime(name, t);
    ParseFormat(t);
    HeadIsPrefix(name);
  }

  /** A task stored as `a_` is handed to the executor of `a`. */
  lemma UnderscoreRunsAnotherTask(t: Stamp)
    requires Valid(t)
    ensures FileTask(FileName("a_", Format(t))) == "a"
    ensures FileDue(FileName("a_", Format(t))) == Some(Instant(t))
  {
    FormatShape(t);
    assert Head("a_") == "a" by { HeadIsPrefix("a_"); }
    FileDiscardExact("a_", t);
  }

  /** Two tasks share a file only when they share name and time. */
  lemma FileNameInjective(name: string, t: Stamp, name': string, t': Stamp)
    requires Valid(t) && Valid(t')
    requires FileName(name, Format(t)) == FileName(name', Format(t'))
    ensures name == name' && t == t'
  {
    hide Format, Parse;
    FormatShape(t);
    FormatShape(t');
    var s := FileName(name, Format(t));
    assert s == name + ['_'] + (Format(t) + ".task") && s == name' + ['_'] + (Format(t') + ".task");
    LastSeparator(name, Format(t) + ".task", name', Format(t') + ".task", '_');
    assert (Format(t) + ".task")[..|Format(t)|] == Format(t);
    ParseFormat(t);
    ParseFormat(t');
  }

  /**
    The files of one task name and zone are in string order as their times are in time
    if and only if the times are not two UTC times within one second with the fraction
    of one a beginning of the other's.
  */
  lemma FileOrderExact(name: string, a: Stamp, b: Stamp)
    requires Valid(a) && Valid(b) && a.offset == b.offset
    ensures (Leq(FileName(name, Format(a)), FileName(name, Format(b))) <==> Instant(a) <= Instant(b)) <==>
            !Confused(a, b)
  {
    hide Leq, Format, Confused;
    var x, y := Format(a) + ".task", Format(b) + ".task";
    assert FileName(name, Format(a)) == (name + "_") + x;
    assert FileName(name, Format(b)) == (name + "_") + y;
    LeqConcat(name + "_", x, name + "_", y);
    LeqTotal(name + "_", name + "_");
    StringOrderExact(a, b, ".task");
  }

  /** So for whole seconds, and in any zone but UTC, the files are in time order. */
  lemma FileOrderIsTimeOrder(name: string, a: Stamp, b: Stamp)
    requires Valid(a) && Valid(b) && a.offset == b.offset && (a.nano == b.nano == 0 || a.offset != 0)
    ensures Leq(FileName(name, Format(a)), FileName(name, Format(b))) <==> Instant(a) <= Instant(b)
  {
    hide Leq, Format, Instant;
    FileOrderExact(name, a, b);
  }

  lemma DecodedFile(name: string, t: Stamp, file: string)
    requires Valid(t) && Decodable(name, t) && file == FileName(name, Format(t))
    ensures FileTask(file) == name && FileDue(file) == Some(Instant(t))
  {
    hide Format, Instant, FileTask, FileDue, Valid;
    HeadIsPrefix(name);
    FileDiscardExact(name, t);
  }

  lemma JoinedAhead()
    ensures FileName("DoSomeJob", "2026-05-01T19:20:39+03:30") == "DoSomeJob_2026-05-01T19:20:39+03:30.task"
  {
    assert "DoSomeJob" + "_" == "DoSomeJob_";
    assert "DoSomeJob_" + "2026-05-01T19:20:39+03:30" == "DoSomeJob_2026-05-01T19:20:39+03:30";
  }

  lemma JoinedUtc()
    ensures FileName("DoSomeJob", "2026-05-01T15:50:39Z") == "DoSomeJob_2026-05-01T15:50:39Z.task"
  {
    assert "DoSomeJob" + "_" == "DoSomeJob_";
    assert "DoSomeJob_" + "2026-05-01T15:50:39Z" == "DoSomeJob_2026-05-01T15:50:39Z";
  }

  /** The example of the source at a whole second, and the same instant in UTC: due at the same time. */
  lemma KnownFiles()
    ensures var a, b := "DoSomeJob_2026-05-01T19:20:39+03:30.task", "DoSomeJob_2026-05-01T15:50:39Z.task";
      && FileTask(a) == "DoSomeJob" && FileTask(b) == "DoSomeJob"
      && FileDue(a) == FileDue(b) == Some(1_777_650_639_000_000_000)
  {
    hide Format, FileTask, FileDue, FileName, Valid, Instant;
    KnownInstants();
    PrintedAhead();
    PrintedUtc();
    JoinedAhead();
    JoinedUtc();
    var a, b := Stamp(2026, 5, 1, 19, 20, 39, 0, 210), Stamp(2026, 5, 1, 15, 50, 39, 0, 0);
    assert Format(a)[0] == Format(b)[0] == '2';
    DecodedFile("DoSomeJob", a, FileName("DoSomeJob", Format(a)));
    DecodedFile("DoSomeJob", b, FileName("DoSomeJob", Format(b)));
  }

  // ---------- Redis ids ----------

  /** `%d`. */
  function Decimal(n: int): string {
    if n < 0 then "-" + Natural(-n) else Natural(n)
  }

  /** The sorted-set member under which `Store` keeps a task (pkg/scheduler/redis.go). */
  function RedisId(name: string, unix: int, salt: nat): string {
    "task_" + name + "_" + Decimal(unix) + "_" + Decimal(salt)
  }

  /** The task name that `Retrieve` reads off an id. */
  function RedisTask(id: string): string {
    Split(TrimLeft(id, "task_"), '_')[0]
  }

  lemma DecimalShape(n: int)
    ensures var s := Decimal(n); s != "" && s[0] !in "task_" && '_' !in s
    ensures n < 0 <==> Decimal(n)[0] == '-'
  {
    var s := Natural(if n < 0 then -n else n);
    assert s[0] in s;
  }

  lemma DecimalInjective(m: int, n: int)
    requires Decimal(m) == Decimal(n)
    ensures m == n
  {
    DecimalShape(m);
    DecimalShape(n);
    if m < 0 {
      assert Decimal(m)[1..] == Natural(-m) && Decimal(n)[1..] == Natural(-n);
      NaturalReadsBack(-m);
      NaturalReadsBack(-n);
    } else {
      NaturalReadsBack(m);
      NaturalReadsBack(n);
    }
  }

  /** An id fixes the second at which its task is scheduled. */
  lemma RedisIdInjective(name: string, unix: int, salt: nat, name': string, unix': int, salt': nat)
    requires RedisId(name, unix, salt) == RedisId(name', unix', salt')
    ensures name == name' && unix == unix' && salt == salt'
  {
    hide Decimal;
    DecimalShape(unix);
    DecimalShape(salt);
    DecimalShape(unix');
    DecimalShape(salt');
    var a, b := "task_" + name, "task_" + name';
    LastSeparator(a + "_" + Decimal(unix), Decimal(salt), b + "_" + Decimal(unix'), Decimal(salt'), '_');
    LastSeparator(a, Decimal(unix), b, Decimal(unix'), '_');
    assert a[5..] == name && b[5..] == name';
    DecimalInjective(unix, unix');
    DecimalInjective(salt, salt');
  }

  /**
    An id decodes to its task name if and only if the name is not empty, has no `_`
    and does not start with one of the characters of `task`.
  */
  lemma RedisCodecExact(name: string, unix: int, salt: nat)
    ensures RedisTask(RedisId(name, unix, salt)) == name <==>
            name != "" && '_' !in name && name[0] !in "task"
  {
    hide Decimal;
    DecimalShape(unix);
    var tail := Decimal(unix) + "_" + Decimal(salt);
    var body := name + "_" + tail;
    assert RedisId(name, unix, salt) == "task_" + body;
    TrimLeftThrough("task_", body, "task_");
    var k := TrimLeftSuffix(body, "task_");
    assert body[|name|] == '_' && body[|name| + 1] == Decimal(unix)[0];
    assert k <= |name| + 1;
    HeadIsPrefix(body[k..]);
    if name != "" && '_' !in name && name[0] !in "task" {
      assert body[0] == name[0];
      assert body[k..] == name + "_" + tail;
      HeadBeforeMark(name, tail);
      HeadIsPrefix(name);
    } else if k == |name| + 1 {
      // the whole name is gone and the printed second is taken for it
      assert body[k..] == Decimal(unix) + "_" + Decimal(salt);
      HeadBeforeMark(Decimal(unix), Decimal(salt));
      HeadIsPrefix(Decimal(unix));
      if name != "" {
        assert body[0] == name[0] && body[0] in "task_";
      }
    } else {
      assert body[k..] == name[k..] + "_" + tail;
      HeadBeforeMark(name[k..], tail);
      HeadIsPrefix(name[k..]);
      if k == 0 { assert body[0] == name[0]; }
    }
  }

  lemma KnownDecimals()
    ensures Decimal(1970) == "1970" && Decimal(-60) == "-60" && Decimal(42) == "42" && Decimal(7) == "7"
  {
    assert Natural(19) == "19";
    assert Natural(197) == "197";
    assert Natural(1970) == "1970";
    assert Natural(60) == "60" && Natural(42) == "42";
  }

  /** The form of an id. */
  lemma KnownId()
    ensures RedisId("mail", 1970, 7) == "task_mail_1970_7"
    ensures RedisId("mail", -60, 42) == "task_mail_-60_42"
  {
    hide Decimal;
    KnownDecimals();
    assert "task_" + "mail" + "_" == "task_mail_";
  }
}
