/**
 * The dashboard's `filteredIPs`: the entries shown under the current
 * status, category and search filters. Entries are the records the server
 * sent. A field the source reads as a string but that holds some other
 * value makes the browser throw; here such a field simply does not match.
 */
module Dashboard {
  import opened Results
  import opened Seqs
  import opened Text
  import opened Records

  datatype Filters = Filters(status: string, category: string, search: string)

  /** The filter state the dashboard starts with. */
  const DefaultFilters := Filters("all", "all", "")

  /** The field's text when it holds a string. */
  function TextField(e: Record, k: string): Option<string>
  {
    match Lookup(e, k)
    case Some(Str(s)) => Some(s)
    case _ => None
  }

  /** `ip.ip.includes(search)`: case-sensitive. */
  predicate IpMatches(e: Record, search: string)
  {
    TextField(e, "ip").Some? && Contains(TextField(e, "ip").value, search)
  }

  /** `ip[k]?.toLowerCase().includes(search.toLowerCase())`: case-insensitive, false when absent. */
  predicate MatchesIgnoringCase(e: Record, k: string, search: string)
  {
    TextField(e, k).Some? && Contains(Lower(TextField(e, k).value), Lower(search))
  }

  /** The callback of `ips.filter`: three clauses, each rejecting on its own. */
  predicate Shown(f: Filters, e: Record)
  {
    && (f.status == "all" || Lookup(e, "status") == Some(Str(f.status)))
    && (f.category == "all" || Lookup(e, "category") == Some(Str(f.category)))
    && (f.search == "" || IpMatches(e, f.search)
        || MatchesIgnoringCase(e, "hostname", f.search) || MatchesIgnoringCase(e, "description", f.search))
  }

  function ShownBy(f: Filters): Record -> bool
  {
    e => Shown(f, e)
  }

  function FilteredIPs(ips: seq<Record>, f: Filters): seq<Record>
  {
    Filter(ips, ShownBy(f))
  }

  /** With the initial filters every entry is shown, in order. */
  lemma DefaultFiltersShowAll(ips: seq<Record>)
    ensures FilteredIPs(ips, DefaultFilters) == ips
  {
  }

  /**
   * Every shown entry came from the list and passes each active filter: the
   * exact status, the exact category (an entry without one is never shown)
   * and, for a non-empty search, a match in the ip, hostname or description.
   */
  lemma ShownEntriesPass(ips: seq<Record>, f: Filters)
    ensures forall i :: 0 <= i < |FilteredIPs(ips, f)| ==>
      var e := FilteredIPs(ips, f)[i];
      && e in ips
      && (f.status != "all" ==> Lookup(e, "status") == Some(Str(f.status)))
      && (f.category != "all" ==> "category" in Keys(e) && Lookup(e, "category") == Some(Str(f.category)))
      && (f.search != "" ==>
            IpMatches(e, f.search) || MatchesIgnoringCase(e, "hostname", f.search)
            || MatchesIgnoringCase(e, "description", f.search))
  {
  }

  /**
   * The filter keeps order and keeps each entry that passes as often as it
   * occurs; which entries pass depends only on each entry itself.
   */
  lemma FilteredIPsOrderAndCounts(ips: seq<Record>, f: Filters)
    ensures IsSubsequence(FilteredIPs(ips, f), ips)
    ensures forall e :: multiset(FilteredIPs(ips, f))[e] == if Shown(f, e) then multiset(ips)[e] else 0
  {
    FilterIsSubsequence(ips, ShownBy(f));
    FilterMultiplicity(ips, ShownBy(f));
  }

  /** Filtering what is already filtered changes nothing. */
  lemma FilteredIPsIdempotent(ips: seq<Record>, f: Filters)
    ensures FilteredIPs(FilteredIPs(ips, f), f) == FilteredIPs(ips, f)
  {
  }

  /** Two fields whose texts differ only in letter case are found by the same searches. */
  lemma FieldCase(e: Record, e': Record, k: string, search: string)
    requires TextField(e, k).Some? && TextField(e', k).Some?
    requires Lower(TextField(e, k).value) == Lower(TextField(e', k).value)
    ensures MatchesIgnoringCase(e, k, search) == MatchesIgnoringCase(e', k, search)
  {
  }

  /** The hostname and description searches do not see letter case; the ip search does. */
  lemma SearchCase(e: Record, search: string, other: string)
    requires Lower(search) == Lower(other)
    ensures MatchesIgnoringCase(e, "hostname", search) == MatchesIgnoringCase(e, "hostname", other)
    ensures MatchesIgnoringCase(e, "description", search) == MatchesIgnoringCase(e, "description", other)
    ensures var ipOnly := [("ip", Str("AB"))];
      IpMatches(ipOnly, "AB") && !IpMatches(ipOnly, "ab") && Lower("AB") == Lower("ab")
  {
    var ipOnly := [("ip", Str("AB"))];
    assert Contains("AB", "AB");
    assert "AB"[1..] == "B" && "B"[1..] == "";
    assert !Contains("", "ab");
    assert "ab"[0] != "B"[0] && "ab"[0] != "AB"[0];
    assert !("ab" <= "B") && !Contains("B", "ab");
    assert !("ab" <= "AB");
  }
}
