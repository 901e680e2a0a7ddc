/** What the texts in a reply mean as numbers, and which metrics the configuration filters and types how. */
module Readings {
  import opened Text
  import opened Wrappers
  import opened AerospikeStat

  // ----- Numbers -----

  /** The text stands for the number: as a float, or else as a boolean, of which true is 1 and false is 0. */
  predicate Reads(lib: Library, text: string, x: real)
  {
    match lib.parseFloat(text)
    case Some(f) => x == f
    case None =>
      || (lib.parseBool(text) == Some(true) && x == 1.0)
      || (lib.parseBool(text) == Some(false) && x == 0.0)
  }

  /** The text stands for some number. */
  predicate Convertible(lib: Library, text: string)
  {
    lib.parseFloat(text).Some? || lib.parseBool(text).Some?
  }

  lemma ConvertsExactly(env: Env, text: string)
    ensures TryConvert(env, text).Some? <==> Convertible(env.lib, text)
    ensures forall x :: TryConvert(env, text) == Some(x) <==> Reads(env.lib, text, x)
  {
  }

  // ----- Allowed and blocked -----

  /** One of the patterns, the empty ones aside, matches. */
  predicate Matched(lib: Library, stat: string, patterns: seq<string>)
  {
    exists p | p in patterns && p != "" :: lib.globMatch(p, stat)
  }

  /** Five contexts are filtered: there a stat is allowed exactly if no block pattern matches it, and an allow pattern
      does or there are none. Everything else is allowed. */
  lemma AllowedExactly(env: Env, context: Context, stat: string)
    ensures IsMetricAllowed(env, context, stat) <==>
              (context in {Namespace, NodeStats, Sets, Sindex, Xdr} ==>
                 && !Matched(env.lib, stat, env.cfg.blocklist(context))
                 && (env.cfg.allowlist(context) == [] || Matched(env.lib, stat, env.cfg.allowlist(context))))
  {
  }

  /** More block patterns never allow more. */
  lemma BlockingRemoves(env: Env, more: Env, context: Context, stat: string)
    requires more.lib == env.lib && more.cfg.allowlist(context) == env.cfg.allowlist(context)
    requires forall p | p in env.cfg.blocklist(context) :: p in more.cfg.blocklist(context)
    requires IsMetricAllowed(more, context, stat)
    ensures IsMetricAllowed(env, context, stat)
  {
  }

  // ----- Gauges and counters -----

  /** A metric is a gauge exactly if it belongs to the latencies or users, or what is left of its name without
      "storage-engine" holds a '-' or is listed as a gauge of its context. */
  lemma GaugeExactly(env: Env, context: Context, name: string)
    ensures var rest := RemoveAll(name, "storage-engine");
            GetMetricType(env, context, name) == Gauge
            <==> context == Latencies || context == Users || '-' in rest || rest in env.cfg.gauges(context)
  {
  }

  /** A storage-engine metric has the type of what follows. */
  lemma StorageTypes(env: Env, context: Context, rest: string)
    ensures GetMetricType(env, context, "storage-engine" + rest) == GetMetricType(env, context, rest)
  {
    hide RemoveAll;
    RemoveAllLeading("storage-engine", rest);
  }
}
