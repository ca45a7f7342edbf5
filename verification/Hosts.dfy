/** Host admission, internal/runner/host_selection.go. */
module Hosts {
  import opened Text
  import opened Domain

  datatype HostLoad = HostLoad(host: string, running: int)

  datatype HostSelection = HostSelection(hosts: seq<string>, maxPerHost: Option<int>)

  /** The configured hosts, trimmed, blanks dropped, order kept. */
  function Configured(hosts: seq<string>): seq<string> {
    if hosts == [] then []
    else (if IsBlank(hosts[0]) then [] else [Trim(hosts[0])]) + Configured(hosts[1..])
  }

  lemma {:induction false} ConfiguredClean(hosts: seq<string>)
    ensures forall h :: h in Configured(hosts) <==> exists raw :: raw in hosts && Trim(raw) == h && h != ""
    ensures forall h :: h in Configured(hosts) ==> Trim(h) == h
  {
    if hosts != [] {
      TrimIdempotent(hosts[0]);
      ConfiguredClean(hosts[1..]);
      forall h ensures h in Configured(hosts) <==> exists raw :: raw in hosts && Trim(raw) == h && h != "" {
        if h in Configured(hosts[1..]) {
          var raw :| raw in hosts[1..] && Trim(raw) == h && h != "";
          assert raw in hosts;
        }
        if h in Configured(hosts) && h !in Configured(hosts[1..]) {
          assert hosts[0] in hosts && Trim(hosts[0]) == h;
        }
        if raw :| raw in hosts && Trim(raw) == h && h != "" {
          assert raw == hosts[0] || raw in hosts[1..];
        }
      }
    }
  }

  lemma {:induction false} ConfiguredSnoc(hosts: seq<string>, h: string)
    ensures Configured(hosts + [h]) == Configured(hosts) + (if IsBlank(h) then [] else [Trim(h)])
  {
    if hosts == [] {
      assert hosts + [h] == [h];
    } else {
      assert (hosts + [h])[1..] == hosts[1..] + [h];
      ConfiguredSnoc(hosts[1..], h);
    }
  }

  method NormalizeHosts(hosts: seq<string>) returns (normalized: seq<string>)
    ensures normalized == Configured(hosts)
  {
    normalized := [];
    for i := 0 to |hosts|
      invariant normalized == Configured(hosts[..i])
    {
      ConfiguredSnoc(hosts[..i], hosts[i]);
      assert hosts[..i + 1] == hosts[..i] + [hosts[i]];
      var trimmed := Trim(hosts[i]);
      if trimmed != "" {
        normalized := normalized + [trimmed];
      }
    }
    assert hosts[..|hosts|] == hosts;
  }

  /** The load a list of host loads puts on one host: positive entries whose trimmed name matches. */
  function LoadOn(loads: seq<HostLoad>, host: string): int {
    if loads == [] then 0
    else
      var last := loads[|loads| - 1];
      LoadOn(loads[..|loads| - 1], host)
      + (if Trim(last.host) == host && host != "" && last.running > 0 then last.running else 0)
  }

  function CountFor(counts: map<string, int>, host: string): int {
    if host in counts then counts[host] else 0
  }

  /** The loads by host, blank and idle entries skipped. */
  function Tally(loads: seq<HostLoad>): map<string, int> {
    if loads == [] then map[]
    else
      var last, before := loads[|loads| - 1], Tally(loads[..|loads| - 1]);
      var host := Trim(last.host);
      if host == "" || last.running <= 0 then before else before[host := CountFor(before, host) + last.running]
  }

  method HostCounts(loads: seq<HostLoad>) returns (counts: map<string, int>)
    ensures counts == Tally(loads)
  {
    counts := map[];
    for i := 0 to |loads|
      invariant counts == Tally(loads[..i])
    {
      assert loads[..i + 1][..i] == loads[..i];
      var host := Trim(loads[i].host);
      if !(host == "" || loads[i].running <= 0) {
        counts := counts[host := CountFor(counts, host) + loads[i].running];
      }
    }
    assert loads[..|loads|] == loads;
  }

  /** The tally of a host is its total load. */
  lemma {:induction false} TallyIsLoad(loads: seq<HostLoad>, host: string)
    ensures CountFor(Tally(loads), host) == LoadOn(loads, host)
  {
    if loads != [] {
      TallyIsLoad(loads[..|loads| - 1], host);
      TallyIsLoad(loads[..|loads| - 1], Trim(loads[|loads| - 1].host));
    }
  }

  predicate HasCapacity(selection: HostSelection, running: int) {
    selection.maxPerHost.None? || running < selection.maxPerHost.value
  }

  predicate Eligible(selection: HostSelection, counts: map<string, int>, host: string) {
    HasCapacity(selection, CountFor(counts, host))
  }

  /** The host the scan has kept after the first k hosts. */
  function BestOf(selection: HostSelection, counts: map<string, int>, hosts: seq<string>, k: nat): Option<string>
    requires k <= |hosts|
  {
    if k == 0 then None
    else
      var best := BestOf(selection, counts, hosts, k - 1);
      var host := hosts[k - 1];
      if Eligible(selection, counts, host) && (best.None? || CountFor(counts, host) < CountFor(counts, best.value))
      then Some(host) else best
  }

  predicate PrefersEligible(selection: HostSelection, preferred: string, counts: map<string, int>) {
    var host := Trim(preferred);
    host != "" && host in Configured(selection.hosts) && Eligible(selection, counts, host)
  }

  function Choose(selection: HostSelection, preferred: string, counts: map<string, int>): Option<string> {
    var hosts := Configured(selection.hosts);
    if hosts == [] then Some("")
    else if PrefersEligible(selection, preferred, counts) then Some(Trim(preferred))
    else BestOf(selection, counts, hosts, |hosts|)
  }

  /** The two locals of the scan hold the best host so far and its load; "" stands for none. */
  predicate KeepsBest(
    selection: HostSelection, counts: map<string, int>, hosts: seq<string>, k: nat, bestHost: string, bestLoad: int)
    requires k <= |hosts|
  {
    var best := BestOf(selection, counts, hosts, k);
    if bestHost == "" then best.None? else best == Some(bestHost) && bestLoad == CountFor(counts, bestHost)
  }

  lemma KeepBest(
    selection: HostSelection, counts: map<string, int>, hosts: seq<string>, k: nat, bestHost: string, bestLoad: int)
    requires k < |hosts| && hosts[k] != "" && KeepsBest(selection, counts, hosts, k, bestHost, bestLoad)
    ensures var load := CountFor(counts, hosts[k]);
            if HasCapacity(selection, load) && (bestHost == "" || load < bestLoad)
            then KeepsBest(selection, counts, hosts, k + 1, hosts[k], load)
            else KeepsBest(selection, counts, hosts, k + 1, bestHost, bestLoad)
  {
  }

  method Select(selection: HostSelection, preferred: string, loads: seq<HostLoad>) returns (host: Option<string>)
    ensures host == Choose(selection, preferred, Tally(loads))
  {
    var hosts := NormalizeHosts(selection.hosts);
    ConfiguredClean(selection.hosts);
    var counts := HostCounts(loads);
    if |hosts| == 0 {
      return Some("");
    }
    var wanted := Trim(preferred);
    if wanted != "" && wanted in hosts && HasCapacity(selection, CountFor(counts, wanted)) {
      return Some(wanted);
    }
    var bestHost := "";
    var bestLoad := 0;
    for k := 0 to |hosts|
      invariant KeepsBest(selection, counts, hosts, k, bestHost, bestLoad)
    {
      var load := CountFor(counts, hosts[k]);
      assert hosts[k] in hosts;
      KeepBest(selection, counts, hosts, k, bestHost, bestLoad);
      if HasCapacity(selection, load) {
        if bestHost == "" || load < bestLoad {
          bestHost := hosts[k];
          bestLoad := load;
        }
      }
    }
    host := if bestHost == "" then None else Some(bestHost);
  }

  /** What admission promises, said without the scan. */
  ghost predicate IsSelection(
    selection: HostSelection, preferred: string, counts: map<string, int>, choice: Option<string>)
  {
    var hosts := Configured(selection.hosts);
    if hosts == [] then choice == Some("")
    else if PrefersEligible(selection, preferred, counts) then choice == Some(Trim(preferred))
    else if choice.None? then forall h :: h in hosts ==> !Eligible(selection, counts, h)
    else exists k: nat :: k < |hosts| && IsFirstLeastLoaded(selection, counts, hosts, k) && hosts[k] == choice.value
  }

  ghost predicate IsFirstLeastLoaded(
    selection: HostSelection, counts: map<string, int>, hosts: seq<string>, k: nat)
    requires k < |hosts|
  {
    && Eligible(selection, counts, hosts[k])
    && (forall j :: 0 <= j < |hosts| && Eligible(selection, counts, hosts[j]) ==>
          CountFor(counts, hosts[k]) <= CountFor(counts, hosts[j]))
    && (forall j :: 0 <= j < k && Eligible(selection, counts, hosts[j]) ==>
          CountFor(counts, hosts[k]) < CountFor(counts, hosts[j]))
  }

  lemma {:induction false} BestIsFirstLeast(
    selection: HostSelection, counts: map<string, int>, hosts: seq<string>, k: nat) returns (at: nat)
    requires k <= |hosts|
    ensures BestOf(selection, counts, hosts, k).None? ==>
              forall j :: 0 <= j < k ==> !Eligible(selection, counts, hosts[j])
    ensures BestOf(selection, counts, hosts, k).Some? ==>
              at < k && hosts[at] == BestOf(selection, counts, hosts, k).value
              && IsFirstLeastLoaded(selection, counts, hosts[..k], at)
  {
    at := 0;
    if k > 0 {
      at := BestIsFirstLeast(selection, counts, hosts, k - 1);
      var best := BestOf(selection, counts, hosts, k - 1);
      if Eligible(selection, counts, hosts[k - 1])
         && (best.None? || CountFor(counts, hosts[k - 1]) < CountFor(counts, best.value)) {
        at := k - 1;
      }
      if BestOf(selection, counts, hosts, k).Some? && best.Some? {
        forall j | 0 <= j < k - 1 && Eligible(selection, counts, hosts[j])
          ensures CountFor(counts, best.value) <= CountFor(counts, hosts[j])
        {
          assert hosts[..k - 1][j] == hosts[j];
        }
      }
      if BestOf(selection, counts, hosts, k).Some? && at < k - 1 {
        forall j | 0 <= j < at && Eligible(selection, counts, hosts[j])
          ensures CountFor(counts, hosts[at]) < CountFor(counts, hosts[j])
        {
          assert hosts[..k - 1][j] == hosts[j];
        }
      }
    }
  }

  /** The scan meets the promise: preferred if eligible, else first least-loaded, refused only when all are full. */
  lemma ChooseIsSelection(selection: HostSelection, preferred: string, counts: map<string, int>)
    ensures IsSelection(selection, preferred, counts, Choose(selection, preferred, counts))
  {
    var hosts := Configured(selection.hosts);
    var at := BestIsFirstLeast(selection, counts, hosts, |hosts|);
    assert hosts[..|hosts|] == hosts;
  }

  /** And the promise leaves no freedom: it has exactly one answer. */
  lemma SelectionUnique(
    selection: HostSelection, preferred: string, counts: map<string, int>, a: Option<string>, b: Option<string>)
    requires IsSelection(selection, preferred, counts, a) && IsSelection(selection, preferred, counts, b)
    ensures a == b
  {
    var hosts := Configured(selection.hosts);
    if hosts != [] && !PrefersEligible(selection, preferred, counts) && a.Some? && b.Some? {
      var i: nat :| i < |hosts| && IsFirstLeastLoaded(selection, counts, hosts, i) && hosts[i] == a.value;
      var j: nat :| j < |hosts| && IsFirstLeastLoaded(selection, counts, hosts, j) && hosts[j] == b.value;
      assert !(i < j) && !(j < i);
    }
  }

  /** Only the loads matter, not the map that carries them. */
  lemma ChooseExtensional(selection: HostSelection, preferred: string, a: map<string, int>, b: map<string, int>)
    requires forall h :: CountFor(a, h) == CountFor(b, h)
    ensures Choose(selection, preferred, a) == Choose(selection, preferred, b)
  {
    ChooseIsSelection(selection, preferred, a);
    ChooseIsSelection(selection, preferred, b);
    assert forall h :: Eligible(selection, a, h) == Eligible(selection, b, h);
    var choice := Choose(selection, preferred, a);
    var hosts := Configured(selection.hosts);
    if hosts != [] && !PrefersEligible(selection, preferred, a) && choice.Some? {
      var k: nat :| k < |hosts| && IsFirstLeastLoaded(selection, a, hosts, k) && hosts[k] == choice.value;
      assert IsFirstLeastLoaded(selection, b, hosts, k);
    }
    SelectionUnique(selection, preferred, b, choice, Choose(selection, preferred, b));
  }

  /** A refusal means every configured host is full, whatever host was preferred. */
  lemma RefusedMeansFull(selection: HostSelection, preferred: string, counts: map<string, int>)
    ensures Choose(selection, preferred, counts).None? <==>
              Configured(selection.hosts) != []
              && forall h :: h in Configured(selection.hosts) ==> !Eligible(selection, counts, h)
  {
    ChooseIsSelection(selection, preferred, counts);
    var hosts := Configured(selection.hosts);
    var choice := Choose(selection, preferred, counts);
    if choice.Some? && hosts != [] && !PrefersEligible(selection, preferred, counts) {
      var k: nat :| k < |hosts| && IsFirstLeastLoaded(selection, counts, hosts, k) && hosts[k] == choice.value;
      assert hosts[k] in hosts;
    }
  }

  /** An admitted host has room, when hosts are configured. */
  lemma AdmittedHasRoom(selection: HostSelection, preferred: string, counts: map<string, int>)
    requires Configured(selection.hosts) != [] && Choose(selection, preferred, counts).Some?
    ensures Choose(selection, preferred, counts).value in Configured(selection.hosts)
    ensures Eligible(selection, counts, Choose(selection, preferred, counts).value)
  {
    ChooseIsSelection(selection, preferred, counts);
    var hosts := Configured(selection.hosts);
    var choice := Choose(selection, preferred, counts);
    if !PrefersEligible(selection, preferred, counts) {
      var k: nat :| k < |hosts| && IsFirstLeastLoaded(selection, counts, hosts, k) && hosts[k] == choice.value;
      assert hosts[k] in hosts;
    }
  }
}
