/** The arguments of mysqld_exporter, rewritten in place, and what is stored about them. */
module MysqlExporter {
  import opened Strings
  import opened Monitor
  import opened Sanitize

  datatype Collector =
    | AutoIncrement | BinlogSize | GlobalStatus | GlobalVariables | InnodbMetrics | InnodbCmp | InnodbCmpmem
    | Processlist | ResponseTime | Tables | TableStats | UserStats | EventsWaits | FileEvents | IndexIOWaits
    | TableIOWaits | TableLocks | SlaveStatus

  const Collectors: seq<Collector> := [
    AutoIncrement, BinlogSize, GlobalStatus, GlobalVariables, InnodbMetrics, InnodbCmp, InnodbCmpmem,
    Processlist, ResponseTime, Tables, TableStats, UserStats, EventsWaits, FileEvents, IndexIOWaits,
    TableIOWaits, TableLocks, SlaveStatus]

  function Schema(c: Collector): string {
    match c
    case InnodbMetrics | InnodbCmp | InnodbCmpmem | Processlist | ResponseTime | Tables | TableStats | UserStats =>
      "info_schema."
    case EventsWaits | FileEvents | IndexIOWaits | TableIOWaits | TableLocks => "perf_schema."
    case _ => ""
  }

  function Item(c: Collector): string {
    match c
    case AutoIncrement => "auto_increment.columns"
    case BinlogSize => "binlog_size"
    case GlobalStatus => "global_status"
    case GlobalVariables => "global_variables"
    case InnodbMetrics => "innodb_metrics"
    case InnodbCmp => "innodb_cmp"
    case InnodbCmpmem => "innodb_cmpmem"
    case Processlist => "processlist"
    case ResponseTime => "query_response_time"
    case Tables => "tables"
    case TableStats => "tablestats"
    case UserStats => "userstats"
    case EventsWaits => "eventswaits"
    case FileEvents => "file_events"
    case IndexIOWaits => "indexiowaits"
    case TableIOWaits => "tableiowaits"
    case TableLocks => "tablelocks"
    case SlaveStatus => "slave_status"
  }

  function Name(c: Collector): string { Schema(c) + Item(c) }

  /** What a flag starts with. */
  function Prefix(c: Collector): string { "-collect." + Name(c) + "=" }

  function Flag(c: Collector, on: bool): string { Prefix(c) + if on then "true" else "false" }

  /** disableArgs. */
  function DisableArgs(option: string): seq<Collector> {
    if option == "tablestats" then [AutoIncrement, Tables, TableStats, IndexIOWaits, TableIOWaits, TableLocks]
    else if option == "userstats" then [UserStats]
    else if option == "binlogstats" then [BinlogSize]
    else if option == "processlist" then [Processlist]
    else []
  }

  /** The option that switches a collector off, if there is one. */
  function OptionOf(c: Collector): Option<string> {
    match c
    case AutoIncrement | Tables | TableStats | IndexIOWaits | TableIOWaits | TableLocks => Some("tablestats")
    case UserStats => Some("userstats")
    case BinlogSize => Some("binlogstats")
    case Processlist => Some("processlist")
    case _ => None
  }

  lemma OptionSwitches(c: Collector, option: string)
    ensures c in DisableArgs(option) <==> OptionOf(c) == Some(option)
  {
    assert "tablestats"[0] == 't' && "userstats"[0] == 'u' && "binlogstats"[0] == 'b' && "processlist"[0] == 'p';
  }

  /** Length and first letters of a name, and the letter after its schema; enough to tell the names apart. */
  function ShapeOf(c: Collector): (nat, char, char) {
    match c
    case AutoIncrement => (22, 'a', ' ')
    case BinlogSize => (11, 'b', ' ')
    case GlobalStatus => (13, 'g', ' ')
    case GlobalVariables => (16, 'g', ' ')
    case InnodbMetrics => (26, 'i', 'i')
    case InnodbCmp => (22, 'i', 'i')
    case InnodbCmpmem => (25, 'i', 'i')
    case Processlist => (23, 'i', 'p')
    case ResponseTime => (31, 'i', 'q')
    case Tables => (18, 'i', 't')
    case TableStats => (22, 'i', 't')
    case UserStats => (21, 'i', 'u')
    case EventsWaits => (23, 'p', 'e')
    case FileEvents => (23, 'p', 'f')
    case IndexIOWaits => (24, 'p', 'i')
    case TableIOWaits => (24, 'p', 't')
    case TableLocks => (22, 'p', 't')
    case SlaveStatus => (12, 's', ' ')
  }

  lemma SchemaShape(c: Collector)
    ensures '=' !in Schema(c)
    ensures Schema(c) == "" <==> ShapeOf(c).2 == ' '
    ensures Schema(c) != "" ==> |Schema(c)| == 12 && Schema(c)[0] == ShapeOf(c).1
  {
  }

  lemma ItemShape(c: Collector)
    ensures '=' !in Item(c) && Item(c) != ""
    ensures |Item(c)| == ShapeOf(c).0 - if Schema(c) == "" then 0 else 12
    ensures Item(c)[0] == if Schema(c) == "" then ShapeOf(c).1 else ShapeOf(c).2
  {
    SchemaShape(c);
    hide Schema;
  }

  lemma NameShape(c: Collector)
    ensures '=' !in Name(c)
    ensures |Name(c)| == ShapeOf(c).0 && |Name(c)| > 0 && Name(c)[0] == ShapeOf(c).1
    ensures ShapeOf(c).2 != ' ' ==> |Name(c)| > 12 && Name(c)[12] == ShapeOf(c).2
  {
    hide Schema, Item;
    SchemaShape(c);
    ItemShape(c);
  }

  lemma ShapesDiffer(c: Collector, d: Collector)
    requires ShapeOf(c).0 == ShapeOf(d).0 && ShapeOf(c).1 == ShapeOf(d).1
    requires ShapeOf(c).2 != ' ' && ShapeOf(d).2 != ' ' ==> ShapeOf(c).2 == ShapeOf(d).2
    ensures c == d
  {
  }

  /** A flag starts with the prefix of its own collector only. */
  lemma PrefixDecides(c: Collector, on: bool, d: Collector)
    ensures Prefix(d) <= Flag(c, on) <==> c == d
  {
    hide Name, ShapeOf;
    var head := "-collect.";
    NameShape(c);
    NameShape(d);
    if Prefix(d) <= Flag(c, on) {
      var value := if on then "true" else "false";
      assert Flag(c, on)[|head|..] == Name(c) + ['='] + value;
      assert Prefix(d)[|head|..] == Name(d) + ['='] + [];
      SplitPrefix(Name(d), [], Name(c), value, '=');
      ShapesDiffer(c, d);
    }
  }

  // ---------- the arguments ----------

  /** Some option in the list switches the collector off. */
  predicate Disabled(c: Collector, options: seq<string>) {
    OptionOf(c).Some? && OptionOf(c).value in options
  }

  /** Every flag at its place, on unless its collector is in the set. */
  predicate Holds(args: array<string>, off: set<Collector>)
    reads args
  {
    args.Length == |Collectors| && forall i | 0 <= i < args.Length ::
      args[i] == Flag(Collectors[i], Collectors[i] !in off)
  }

  lemma CollectorsAreDistinct()
    ensures forall i, j | 0 <= i < j < |Collectors| :: Collectors[i] != Collectors[j]
  {
  }

  lemma EveryCollectorIsThere(c: Collector)
    ensures c in Collectors
  {
  }

  /** The innermost loop: the flag of one collector. */
  method SwitchOff(args: array<string>, f: Collector, ghost off: set<Collector>)
    requires Holds(args, off)
    modifies args
    ensures Holds(args, off + {f})
  {
    hide Flag, Prefix, Collectors;
    CollectorsAreDistinct();
    EveryCollectorIsThere(f);
    for i := 0 to args.Length
      invariant Holds(args, off) && forall j | 0 <= j < i :: Collectors[j] != f
    {
      PrefixDecides(Collectors[i], Collectors[i] !in off, f);
      if Prefix(f) <= args[i] {
        args[i] := Prefix(f) + "false";
        FalseFlag(f);
        return;
      }
    }
  }

  lemma FalseFlag(c: Collector)
    ensures Flag(c, false) == Prefix(c) + "false"
  {
  }

  /** Args: one list, rewritten through a second name for it. */
  method Args(optsToDisable: seq<string>) returns (args: array<string>)
    ensures fresh(args)
    ensures Holds(args, Off(optsToDisable))
  {
    hide Flag, DisableArgs, OptionOf;
    var defaultArgs := new string[|Collectors|](i requires 0 <= i < |Collectors| => Flag(Collectors[i], true));
    args := defaultArgs;
    for i := 0 to |optsToDisable|
      invariant Holds(defaultArgs, Off(optsToDisable[..i]))
    {
      var flags := DisableArgs(optsToDisable[i]);
      ghost var before := Off(optsToDisable[..i]);
      for j := 0 to |flags|
        invariant Holds(defaultArgs, before + CollectorSet(flags[..j]))
      {
        assert flags[..j + 1] == flags[..j] + [flags[j]];
        SwitchOff(args, flags[j], before + CollectorSet(flags[..j]));
        assert before + CollectorSet(flags[..j]) + {flags[j]} == before + CollectorSet(flags[..j + 1]);
      }
      assert flags[..|flags|] == flags;
      OffMore(optsToDisable, i);
    }
    assert optsToDisable[..|optsToDisable|] == optsToDisable;
  }

  function CollectorSet(s: seq<Collector>): set<Collector> { set c | c in s }

  function Off(options: seq<string>): set<Collector> { set c | c in Collectors && Disabled(c, options) }

  lemma OffMore(options: seq<string>, i: nat)
    requires i < |options|
    ensures Off(options[..i + 1]) == Off(options[..i]) + CollectorSet(DisableArgs(options[i]))
  {
    hide DisableArgs, OptionOf, Collectors;
    assert options[..i + 1] == options[..i] + [options[i]];
    forall c: Collector
      ensures c in Off(options[..i + 1]) <==> c in Off(options[..i]) + CollectorSet(DisableArgs(options[i]))
    {
      EveryCollectorIsThere(c);
      OptionSwitches(c, options[i]);
    }
  }

  // ---------- what is stored ----------

  /** KV: the sanitised data source, and OFF for every disabled option. */
  method KV(dsn: string, optsToDisable: seq<string>) returns (kv: map<string, string>)
    ensures forall key :: key in kv <==> key == "dsn" || key in optsToDisable
    ensures forall o | o in optsToDisable :: kv[o] == "OFF"
    ensures "dsn" !in optsToDisable ==> kv["dsn"] == SanitizeDSN(dsn)
  {
    hide SanitizeDSN;
    kv := map["dsn" := SanitizeDSN(dsn)];
    for i := 0 to |optsToDisable|
      invariant forall key :: key in kv <==> key == "dsn" || key in optsToDisable[..i]
      invariant forall o | o in optsToDisable[..i] :: kv[o] == "OFF"
      invariant "dsn" !in optsToDisable[..i] ==> kv["dsn"] == SanitizeDSN(dsn)
    {
      assert optsToDisable[..i + 1] == optsToDisable[..i] + [optsToDisable[i]];
      kv := kv[optsToDisable[i] := "OFF"];
    }
    assert optsToDisable[..|optsToDisable|] == optsToDisable;
  }

  /** The stored options say exactly which flags are off. */
  method ArgsAgreeWithKV(dsn: string, optsToDisable: seq<string>) returns (args: array<string>, kv: map<string, string>)
    ensures args.Length == |Collectors|
    ensures forall i | 0 <= i < args.Length ::
      args[i] == Flag(Collectors[i], !MarkedOff(Collectors[i], kv))
  {
    hide Flag, OptionOf, SanitizeDSN;
    args := Args(optsToDisable);
    kv := KV(dsn, optsToDisable);
    forall i | 0 <= i < args.Length
      ensures MarkedOff(Collectors[i], kv) <==> Collectors[i] in Off(optsToDisable)
    {
      NoOptionIsDsn(Collectors[i]);
    }
  }

  predicate MarkedOff(c: Collector, kv: map<string, string>) {
    OptionOf(c).Some? && OptionOf(c).value in kv && kv[OptionOf(c).value] == "OFF"
  }

  lemma NoOptionIsDsn(c: Collector)
    ensures OptionOf(c).Some? ==> OptionOf(c).value != "dsn"
  {
  }

  // ---------- which options are disabled ----------

  const TABLE_COUNT_WRAP := 0x1_0000

  datatype Flags = Flags(tableStats: bool, tableStatsLimit: nat, userStats: bool, binlogStats: bool, processlist: bool)

  /** optsToDisable; the number of tables is asked for only if table statistics are not disabled already. */
  method OptsToDisable(flags0: Flags, tableCount: Option<nat>) returns (opts: Result<seq<string>>)
    requires flags0.tableStatsLimit < TABLE_COUNT_WRAP
    ensures opts.Failure? <==> !flags0.tableStats && tableCount.None?
    ensures opts.Success? ==>
      && ("tablestats" in opts.value <==>
            flags0.tableStats || tableCount.value % TABLE_COUNT_WRAP > flags0.tableStatsLimit)
      && ("userstats" in opts.value <==> flags0.userStats)
      && ("binlogstats" in opts.value <==> flags0.binlogStats)
      && ("processlist" in opts.value <==> flags0.processlist)
      && (forall o | o in opts.value :: DisableArgs(o) != [])
  {
    assert "tablestats"[0] == 't' && "userstats"[0] == 'u' && "binlogstats"[0] == 'b' && "processlist"[0] == 'p';
    var flags, options := flags0, [];
    if !flags.tableStats {
      if tableCount.None? { return Failure(Failed); }
      if tableCount.value % TABLE_COUNT_WRAP > flags.tableStatsLimit {
        flags := flags.(tableStats := true);
      }
    }
    if flags.tableStats { options := options + ["tablestats"]; }
    if flags.userStats { options := options + ["userstats"]; }
    if flags.binlogStats { options := options + ["binlogstats"]; }
    if flags.processlist { options := options + ["processlist"]; }
    return Success(options);
  }

  /** The comparison is the intended one unless the count has wrapped around to within the limit. */
  lemma LimitIsMeant(tableCount: nat, limit: nat)
    requires limit < TABLE_COUNT_WRAP
    ensures (tableCount % TABLE_COUNT_WRAP > limit <==> tableCount > limit) <==>
      tableCount < TABLE_COUNT_WRAP || tableCount % TABLE_COUNT_WRAP > limit
  {
  }

  /** With 65536 tables statistics stay on, whatever the limit. */
  lemma WrappedCount(limit: nat)
    requires limit < TABLE_COUNT_WRAP
    ensures 65536 > limit && !(65536 % TABLE_COUNT_WRAP > limit)
  {
  }
}
