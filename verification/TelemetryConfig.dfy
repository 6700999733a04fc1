/** Configuration of the network telemetry plugin. Durations are nanoseconds. */
module TelemetryConfig {
  import opened Sequences
  import opened Text

  const SECOND: int := 1_000_000_000
  const MIN_INTERVAL: int := 10 * SECOND
  const MAX_INTERVAL: int := 3600 * SECOND
  const MAX_RUN_TIMEOUT: int := 30 * SECOND
  const DEFAULT_BATCH_WAIT: int := 15 * SECOND

  datatype CollectorConfig = CollectorConfig(enabled: bool, interval: int, timeout: int)

  datatype PluginConfig = PluginConfig(collectors: map<string, CollectorConfig>, batchTimeout: int, sendTimeout: int)

  /** A positive bound, at most half the interval and at most MAX_RUN_TIMEOUT; a requested timeout wins when it fits. */
  function EffectiveTimeout(cc: CollectorConfig): (limit: int)
    ensures 0 < limit <= MAX_RUN_TIMEOUT
    ensures cc.interval >= 2 ==> limit <= cc.interval / 2
    ensures 0 < cc.timeout <= MAX_RUN_TIMEOUT && (cc.interval < 2 || cc.timeout <= cc.interval / 2) ==> limit == cc.timeout
    ensures limit == cc.timeout || limit == MAX_RUN_TIMEOUT || limit == cc.interval / 2
  {
    var half := cc.interval / 2;
    var bound := if half > MAX_RUN_TIMEOUT || half <= 0 then MAX_RUN_TIMEOUT else half;
    if cc.timeout > 0 && cc.timeout <= bound then cc.timeout else bound
  }

  predicate AnyEnabled(pc: PluginConfig) {
    exists name | name in pc.collectors :: pc.collectors[name].enabled
  }

  type Collectors = map<string, CollectorConfig>

  /** One element of the override list; None is the error that makes the caller keep its config. */
  function ApplyPart(cs: Collectors, part: string, parse: string -> Option<int>): Option<Collectors> {
    var p := TrimSpace(part);
    if p == "" then Some(cs)
    else if Before(p, '=') == p then None
    else
      var name := TrimSpace(Before(p, '='));
      var val := TrimSpace(p[|Before(p, '=')| + 1..]);
      if name !in cs then None
      else if val == "off" || val == "false" then Some(cs[name := cs[name].(enabled := false)])
      else
        var d := parse(val);
        if d.None? || d.value < MIN_INTERVAL || d.value > MAX_INTERVAL then None
        else Some(cs[name := cs[name].(enabled := true, interval := d.value)])
  }

  function ApplyParts(cs: Collectors, parts: seq<string>, parse: string -> Option<int>): Option<Collectors> {
    if parts == [] then Some(cs)
    else
      var first := ApplyPart(cs, parts[0], parse);
      if first.None? then None else ApplyParts(first.value, parts[1..], parse)
  }

  /** The config and whether the override was accepted; a rejected override leaves the config alone. */
  function Overridden(base: PluginConfig, spec: string, parse: string -> Option<int>): (PluginConfig, bool) {
    if TrimSpace(spec) == "" then (base, true)
    else
      var cs := ApplyParts(base.collectors, Split(spec, ','), parse);
      if cs.None? then (base, false) else (base.(collectors := cs.value), true)
  }

  method ApplyCollectorOverrides(base: PluginConfig, spec: string, parse: string -> Option<int>)
    returns (cfg: PluginConfig, ok: bool)
    ensures (cfg, ok) == Overridden(base, spec, parse)
  {
    if TrimSpace(spec) == "" { return base, true; }
    var collectors := base.collectors;
    var parts := Split(spec, ',');
    for i := 0 to |parts|
      invariant ApplyParts(base.collectors, parts, parse) == ApplyParts(collectors, parts[i..], parse)
    {
      assert parts[i..][0] == parts[i] && parts[i..][1..] == parts[i + 1..];
      var part := TrimSpace(parts[i]);
      if part == "" { continue; }
      var head := Before(part, '=');
      if head == part { return base, false; }
      var name, val := TrimSpace(head), TrimSpace(part[|head| + 1..]);
      if name !in collectors { return base, false; }
      var cur := collectors[name];
      if val == "off" || val == "false" {
        collectors := collectors[name := cur.(enabled := false)];
        continue;
      }
      var d := parse(val);
      if d.None? || d.value < MIN_INTERVAL || d.value > MAX_INTERVAL { return base, false; }
      collectors := collectors[name := cur.(enabled := true, interval := d.value)];
    }
    return base.(collectors := collectors), true;
  }

  /** A part that, trimmed, reads name = value: what it does, or that it is rejected. */
  lemma {:induction false} OneOverride(base: PluginConfig, part: string, head: string, tail: string,
                                       parse: string -> Option<int>)
    requires ',' !in part && TrimSpace(part) == head + ['='] + tail && '=' !in head
    ensures var name, val := TrimSpace(head), TrimSpace(tail);
            Overridden(base, part, parse) ==
              if name !in base.collectors then (base, false)
              else
                var cc := base.collectors[name];
                if val == "off" || val == "false"
                then (base.(collectors := base.collectors[name := CollectorConfig(false, cc.interval, cc.timeout)]), true)
                else if parse(val).Some? && 10_000_000_000 <= parse(val).value <= 3_600_000_000_000
                then (base.(collectors := base.collectors[name := CollectorConfig(true, parse(val).value, cc.timeout)]), true)
                else (base, false)
  {
    SplitNoSeparator(part, ',');
    assert [part][1..] == [];
    var p := TrimSpace(part);
    assert p[..|head|] == head && p[|head|] == '=';
    BeforeIsFirst(p, '=', |head|);
    assert Before(p, '=') == head && p[|head| + 1..] == tail;
    var cs := ApplyPart(base.collectors, part, parse);
    assert ApplyParts(base.collectors, [part], parse) == cs by { assert [part][0] == part; }
  }

  /** A part that is not blank and holds no equals sign is rejected. */
  lemma {:induction false} NoOverride(base: PluginConfig, part: string, parse: string -> Option<int>)
    requires ',' !in part && TrimSpace(part) != "" && '=' !in TrimSpace(part)
    ensures Overridden(base, part, parse) == (base, false)
  {
    SplitNoSeparator(part, ',');
    var p := TrimSpace(part);
    assert p[..|p|] == p;
    BeforeIsFirst(p, '=', |p|);
  }

  /** A blank list changes nothing. */
  lemma BlankOverride(base: PluginConfig, spec: string, parse: string -> Option<int>)
    requires AllBlank(spec)
    ensures Overridden(base, spec, parse) == (base, true)
  {
    TrimSurrounded(spec, "", "");
    assert spec + "" + "" == spec;
  }

  /** What an accepted override may do to one collector. */
  ghost predicate AllowedChange(before: CollectorConfig, after: CollectorConfig) {
    && after.timeout == before.timeout
    && (after.interval == before.interval || MIN_INTERVAL <= after.interval <= MAX_INTERVAL)
    && (after.enabled && !before.enabled ==> MIN_INTERVAL <= after.interval <= MAX_INTERVAL)
  }

  lemma {:induction false} PartsChangeCollectors(cs: Collectors, parts: seq<string>, parse: string -> Option<int>)
    requires ApplyParts(cs, parts, parse).Some?
    ensures var after := ApplyParts(cs, parts, parse).value;
            after.Keys == cs.Keys && forall n | n in cs :: AllowedChange(cs[n], after[n])
  {
    if parts != [] {
      PartsChangeCollectors(ApplyPart(cs, parts[0], parse).value, parts[1..], parse);
    }
  }

  /** An accepted override names no new collector, keeps timeouts, and enables none outside the permitted range. */
  lemma OverrideFrame(base: PluginConfig, spec: string, parse: string -> Option<int>)
    ensures var r := Overridden(base, spec, parse);
            && r.0.batchTimeout == base.batchTimeout && r.0.sendTimeout == base.sendTimeout
            && r.0.collectors.Keys == base.collectors.Keys
            && (forall n | n in base.collectors :: AllowedChange(base.collectors[n], r.0.collectors[n]))
            && (!r.1 ==> r.0 == base)
  {
    var cs := ApplyParts(base.collectors, Split(spec, ','), parse);
    if TrimSpace(spec) != "" && cs.Some? { PartsChangeCollectors(base.collectors, Split(spec, ','), parse); }
  }

  lemma {:induction false} PartsConcat(cs: Collectors, a: seq<string>, b: seq<string>, parse: string -> Option<int>)
    ensures var first := ApplyParts(cs, a, parse);
            ApplyParts(cs, a + b, parse) == if first.None? then None else ApplyParts(first.value, b, parse)
  {
    if a == [] {
      assert a + b == b;
    } else {
      assert (a + b)[1..] == a[1..] + b;
      var first := ApplyPart(cs, a[0], parse);
      if first.Some? { PartsConcat(first.value, a[1..], b, parse); }
    }
  }

  lemma {:induction false} TrimLeftBlank(s: string, i: nat)
    requires i < |s| && !IsSpace(s[i])
    ensures TrimSpace(s) != ""
  {
    if IsSpace(s[0]) {
      TrimLeftBlank(s[1..], i - 1);
    } else {
      TrimRightCuts(s);
    }
  }

  /** A blank list has only blank parts: white space holds no comma. */
  lemma TrimmedAway(s: string)
    requires TrimSpace(s) == ""
    ensures ',' !in s
  {
    if i: nat :| i < |s| && s[i] == ',' { TrimLeftBlank(s, i); }
  }

  lemma BlankListChangesNothing(cs: Collectors, spec: string, parse: string -> Option<int>)
    requires TrimSpace(spec) == ""
    ensures ApplyParts(cs, Split(spec, ','), parse) == Some(cs)
  {
    TrimmedAway(spec);
    SplitNoSeparator(spec, ',');
    assert [spec][1..] == [];
  }

  /** A list is the composition of its parts: it is accepted when both are, and then acts as one after the other. */
  lemma OverrideComposes(base: PluginConfig, a: string, b: string, parse: string -> Option<int>)
    ensures var first := Overridden(base, a, parse);
            var second := Overridden(first.0, b, parse);
            Overridden(base, a + [','] + b, parse) ==
              if first.1 && second.1 then (second.0, true) else (base, false)
  {
    var both := a + [','] + b;
    SplitConcat(a, ',', b);
    PartsConcat(base.collectors, Split(a, ','), Split(b, ','), parse);
    assert both[|a|] == ',';
    TrimLeftBlank(both, |a|);
    if TrimSpace(a) == "" { BlankListChangesNothing(base.collectors, a, parse); }
    var first := Overridden(base, a, parse);
    if TrimSpace(b) == "" { BlankListChangesNothing(first.0.collectors, b, parse); }
  }
}
