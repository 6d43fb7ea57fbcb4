/** The dashboard's statistics cards: the total and one count per status. */
module StatsCards {
  import opened Results
  import opened Seqs
  import opened Records

  datatype Stats = Stats(total: nat, available: nat, occupied: nat, reserved: nat, dhcp: nat)

  /** The test `ip => ip.status === status`. */
  function HasStatus(status: string): Record -> bool
  {
    e => Lookup(e, "status") == Some(Str(status))
  }

  /** `ips.filter(ip => ip.status === status).length`. */
  function StatusCount(ips: seq<Record>, status: string): (n: nat)
    ensures n <= |ips|
  {
    |Filter(ips, HasStatus(status))|
  }

  /** The `stats` object the cards show. */
  function ComputeStats(ips: seq<Record>): (st: Stats)
    ensures st.total == |ips|
    ensures st.available <= st.total && st.occupied <= st.total
    ensures st.reserved <= st.total && st.dhcp <= st.total
  {
    Stats(|ips|, StatusCount(ips, "available"), StatusCount(ips, "occupied"),
          StatusCount(ips, "reserved"), StatusCount(ips, "dhcp"))
  }

  /** The status is one of the four values `IPEntry.status` declares. */
  predicate KnownStatus(e: Record)
  {
    Lookup(e, "status") in [Some(Str("available")), Some(Str("occupied")), Some(Str("reserved")), Some(Str("dhcp"))]
  }

  /** A per-status count counts exactly the entries holding that status, each as often as it occurs. */
  lemma StatusCountMeaning(ips: seq<Record>, status: string)
    ensures forall e :: (multiset(Filter(ips, HasStatus(status)))[e] ==
      if Lookup(e, "status") == Some(Str(status)) then multiset(ips)[e] else 0)
    ensures StatusCount(ips, status) == |ips| <==> forall i :: 0 <= i < |ips| ==> Lookup(ips[i], "status") == Some(Str(status))
  {
    FilterMultiplicity(ips, HasStatus(status));
  }

  /** When every status is one of the four, the four counts add up to the total. */
  lemma StatusCountsAddUp(ips: seq<Record>)
    requires forall i :: 0 <= i < |ips| ==> KnownStatus(ips[i])
    ensures var st := ComputeStats(ips);
      st.available + st.occupied + st.reserved + st.dhcp == st.total
  {
    CountsAddUp(ips);
  }

  lemma {:induction false} CountsAddUp(ips: seq<Record>)
    requires forall i :: 0 <= i < |ips| ==> KnownStatus(ips[i])
    ensures StatusCount(ips, "available") + StatusCount(ips, "occupied")
      + StatusCount(ips, "reserved") + StatusCount(ips, "dhcp") == |ips|
  {
    if ips != [] {
      var rest := ips[1..];
      forall i | 0 <= i < |rest| ensures KnownStatus(rest[i]) {
        assert rest[i] == ips[i + 1];
      }
      CountsAddUp(rest);
      StatusCountStep(ips, "available");
      StatusCountStep(ips, "occupied");
      StatusCountStep(ips, "reserved");
      StatusCountStep(ips, "dhcp");
      assert KnownStatus(ips[0]);
    }
  }

  /** A count is the first entry's contribution plus the count of the rest. */
  lemma StatusCountStep(ips: seq<Record>, status: string)
    requires ips != []
    ensures StatusCount(ips, status) ==
      (if Lookup(ips[0], "status") == Some(Str(status)) then 1 else 0) + StatusCount(ips[1..], status)
  {
  }
}
