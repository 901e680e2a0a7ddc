/** Which texts in a reply switch a latency histogram on and off, and under which command it is asked for then. */
module Switching {
  import opened Text
  import opened Wrappers
  import opened Commons
  import opened AerospikeStat
  import opened SharedState
  import opened Readings
  import opened HistogramSwitches

  /** The stats that switch histograms: benchmarks other than those of the storage, and plain histograms. */
  predicate NamesHistogram(stat: string)
  {
    && !Contains(stat, "enable-benchmarks-storage")
    && (Contains(stat, "enable-benchmarks-") || Contains(stat, "enable-hist-"))
  }

  lemma SwitchesAre(env: Env, stats: map<string, string>, stat: string)
    ensures Switches(env, stats, stat)
       <==> NamesHistogram(stat) && stat in stats && Convertible(env.lib, stats[stat])
    ensures SwitchesOn(env, stats, stat)
       <==> NamesHistogram(stat) && stat in stats && Reads(env.lib, stats[stat], 1.0)
    ensures stat in stats && Reads(env.lib, stats[stat], 1.0) ==> Convertible(env.lib, stats[stat])
  {
    hide Contains;
    if stat in stats {
      ConvertsExactly(env, stats[stat]);
    }
  }

  /** What a reply does to the benchmarks, by the two parsers: a number switches a histogram on if it is 1 and off
      otherwise, and so do true and false, if the text is no number; everything else leaves it alone. */
  lemma ReplySwitches(env: Env, scope: Scope, stats: map<string, string>, stat: string, benchmarks: Benchmarks)
    ensures var after := SwitchAll(env, scope, stats, benchmarks);
            if NamesHistogram(stat) && stat in stats then
              match (env.lib.parseFloat(stats[stat]), env.lib.parseBool(stats[stat]))
              case (Some(x), _) => stat in after <==> x == 1.0
              case (None, Some(on)) => stat in after <==> on
              case (None, None) => (stat in after <==> stat in benchmarks)
                                   && (stat in after ==> after[stat] == benchmarks[stat])
            else
              (stat in after <==> stat in benchmarks) && (stat in after ==> after[stat] == benchmarks[stat])
  {
    SwitchesAre(env, stats, stat);
    hide Switches, SwitchesOn, Command, NamesHistogram;
  }

  /** The command under which a histogram of a namespace, or of the service, is asked for. */
  lemma CommandsAre(ns: string, stat: string)
    ensures Command(OfNamespace(ns), stat) == RemoveAll(RemoveAll("{" + ns + "}-" + stat, "enable-"), "hist-")
    ensures Command(OfService, stat) == RemoveAll(RemoveAll(stat, "enable-"), "hist-")
  {
    hide RemoveAll;
  }

  lemma Unprefixed(op: string)
    requires !Contains(op, "enable-") && !Contains(op, "hist-") && !Contains("benchmarks-" + op, "enable-")
             && !Contains("benchmarks-" + op, "hist-")
    ensures RemoveAll(RemoveAll("enable-benchmarks-" + op, "enable-"), "hist-") == "benchmarks-" + op
    ensures RemoveAll(RemoveAll("enable-hist-" + op, "enable-"), "hist-") == op
  {
    assert "enable-benchmarks-" == "enable-" + "benchmarks-" && "enable-hist-" == "enable-" + "hist-";
    Regroup("enable-", "benchmarks-", op);
    Regroup("enable-", "hist-", op);
    hide Contains;
    RemoveAllLeading("enable-", "benchmarks-" + op);
    RemoveAllLeading("enable-", "hist-" + op);
    RemoveAllFixes("benchmarks-" + op, "enable-");
    RemoveAllFixes("benchmarks-" + op, "hist-");
    HistStays(op);
    RemoveAllLeading("hist-", op);
    RemoveAllFixes(op, "hist-");
    hide RemoveAll;
  }

  lemma OneByteOn(c: char, rest: string)
    requires c != 'e'
    ensures Contains([c] + rest, "enable-") <==> Contains(rest, "enable-")
  {
    assert ([c] + rest)[0] != "enable-"[0] && ([c] + rest)[1..] == rest;
  }

  lemma {:induction false} TooLong(s: string, pat: string)
    requires |s| < |pat|
    ensures !Contains(s, pat)
  {
    if s != "" {
      TooLong(s[1..], pat);
    }
  }

  /** Taking "enable-" out of "hist-op" leaves it alone if op does not hold it. */
  lemma HistStays(op: string)
    requires !Contains(op, "enable-")
    ensures RemoveAll("hist-" + op, "enable-") == "hist-" + op
  {
    var text := "hist-" + op;
    OneByteOn('h', "ist-" + op);
    OneByteOn('i', "st-" + op);
    OneByteOn('s', "t-" + op);
    OneByteOn('t', "-" + op);
    OneByteOn('-', op);
    assert text == ['h'] + ("ist-" + op) && "ist-" + op == ['i'] + ("st-" + op) && "st-" + op == ['s'] + ("t-" + op);
    assert "t-" + op == ['t'] + ("-" + op) && "-" + op == ['-'] + op;
    hide Contains, RemoveAll;
    RemoveAllFixes(text, "enable-");
  }

  lemma Begins(s: string, pat: string)
    ensures Contains(pat + s, pat)
  {
    assert pat <= pat + s;
  }

  lemma InfoText()
    ensures NamesHistogram("enable-hist-info")
    ensures RemoveAll(RemoveAll("enable-hist-info", "enable-"), "hist-") == "info"
  {
    var stat, op := "enable-hist-info", "info";
    assert stat == "enable-hist-" + op && stat == "enable-" + ("hist-" + op);
    Begins(op, "enable-hist-");
    TooLong(stat, "enable-benchmarks-storage");
    TooLong(op, "enable-");
    TooLong(op, "hist-");
    hide Contains, RemoveAll;
    RemoveAllLeading("enable-", "hist-" + op);
    HistStays(op);
    RemoveAllLeading("hist-", op);
    RemoveAllFixes(op, "hist-");
  }

  /** For instance, "enable-hist-info=true" switches the histogram info of the service on, and "=false" off. */
  lemma InfoIsSwitched(env: Env, benchmarks: Benchmarks)
    requires env.lib.parseFloat("true") == None && env.lib.parseBool("true") == Some(true)
    requires env.lib.parseFloat("false") == None && env.lib.parseBool("false") == Some(false)
    ensures var on := SwitchAll(env, OfService, StatsOf("enable-hist-info" + "=" + "true", ';'), benchmarks);
            "enable-hist-info" in on && on["enable-hist-info"] == "info"
    ensures var off := SwitchAll(env, OfService, StatsOf("enable-hist-info" + "=" + "false", ';'), benchmarks);
            "enable-hist-info" !in off
    ensures Reads(env.lib, "true", 1.0) && Reads(env.lib, "false", 0.0)
  {
    var stat := "enable-hist-info";
    assert '=' !in stat && ';' !in stat && ';' !in "true" && ';' !in "false";
    InfoText();
    CommandsAre("", stat);
    hide RemoveAll, Contains, NamesHistogram, StatsOf, Command;
    StatsOne(';', stat, "true");
    StatsOne(';', stat, "false");
    SwitchesAre(env, map[stat := "true"], stat);
    SwitchesAre(env, map[stat := "false"], stat);
    hide Switches, SwitchesOn;
  }
}
