/** The reclaimer's state record: its own consistency rules and how a head observation moves the floors. */
module GcState {
  import opened CatalogTypes

  /** A page put aside: the head it was found unreachable in, and when. Its stored text is the page's canonical path. */
  datatype Quarantined = Quarantined(page: PageKey, size: nat, observedGeneration: nat, observedMS: int)

  /** The fields of the state object. Owner 0 means no owner. */
  datatype State = State(
    owner: nat, leaseUntilMS: int, retentionVersion: nat,
    safeFloor: nat, pendingFloor: nat, pendingSinceMS: int, hasPending: bool,
    segmentThrough: nat, segmentAfter: string,
    pageThrough: nat, pageLevel: nat, pageAfter: string, maxPageLevel: nat,
    stagingAfter: string, stagingEpoch: nat,
    orphanSegmentAfter: string, orphanPageLevel: nat, orphanPageAfter: string,
    quarantine: seq<Quarantined>, updatedMS: int)

  const Absent: State := State(0, 0, 0, 0, 0, 0, false, 0, "", 0, 0, "", 0, "", 0, "", 0, "", [], 0)

  const MAX_QUARANTINE: nat := 1000

  predicate Floors(s: State) {
    && s.segmentThrough <= s.safeFloor && s.pageThrough <= s.safeFloor
    && (s.hasPending ==> s.safeFloor < s.pendingFloor)
    && (!s.hasPending ==> s.pendingFloor == 0 && s.pendingSinceMS == 0)
  }

  /** What is checked whenever the record is read or written. */
  predicate ValidState(s: State) {
    && Floors(s)
    && !(s.pageLevel > s.maxPageLevel && s.pageThrough < s.safeFloor)
    && !(s.orphanPageLevel > s.maxPageLevel && s.orphanPageAfter != "")
    && |s.quarantine| <= MAX_QUARANTINE
    && (forall i :: 0 <= i < |s.quarantine| ==> s.quarantine[i].observedGeneration != 0 && s.quarantine[i].observedMS > 0)
    && (forall i, j :: 0 <= i < j < |s.quarantine| ==> s.quarantine[i].page != s.quarantine[j].page)
  }

  /** The highest level among the pages the head refers to. */
  function MaxPageLevel(rs: seq<IndexEntry>): (m: nat)
    ensures (forall i :: 0 <= i < |rs| ==> rs[i].level <= m) && (m > 0 ==> exists i :: 0 <= i < |rs| && rs[i].level == m)
  {
    if rs == [] then 0
    else
      var n := |rs| - 1;
      var m := MaxPageLevel(rs[..n]);
      if rs[n].level > m then rs[n].level else m
  }

  function HeadPageLevel(h: Head): nat { MaxPageLevel(SectionRefs(h.sections)) }

  function Due(s: State, now: int, delay: nat): bool { s.hasPending && now >= s.pendingSinceMS + delay }

  /** A pending floor that has waited long enough becomes safe, restarting the page sweep; a newer oldest LSN becomes
      the next pending floor. */
  function ObserveHead(s: State, h: Head, now: int, delay: nat): State {
    var a := if h.retentionVersion > s.retentionVersion then s.(retentionVersion := h.retentionVersion) else s;
    var b := if HeadPageLevel(h) > a.maxPageLevel then a.(maxPageLevel := HeadPageLevel(h)) else a;
    var d := if Due(b, now, delay) then
               b.(safeFloor := b.pendingFloor, pageLevel := 0, pageAfter := "", pendingFloor := 0, pendingSinceMS := 0, hasPending := false)
             else b;
    if !d.hasPending && h.oldestLSN > d.safeFloor then d.(pendingFloor := h.oldestLSN, pendingSinceMS := now, hasPending := true) else d
  }

  /** An observation keeps the record valid, never lowers a floor, and only promotes the pending one, when due. */
  lemma ObserveKeeps(s: State, h: Head, now: int, delay: nat)
    requires Floors(s)
    ensures var t := ObserveHead(s, h, now, delay);
            && Floors(t) && s.safeFloor <= t.safeFloor
            && t.segmentThrough == s.segmentThrough && t.segmentAfter == s.segmentAfter && t.pageThrough == s.pageThrough && t.quarantine == s.quarantine
            && (t.safeFloor != s.safeFloor ==> Due(s, now, delay) && t.safeFloor == s.pendingFloor && t.pageLevel == 0 && t.pageAfter == "")
            && (t.safeFloor == s.safeFloor ==> t.pageLevel == s.pageLevel && t.pageAfter == s.pageAfter)
            && (t.hasPending ==> (t.pendingFloor == s.pendingFloor && t.pendingSinceMS == s.pendingSinceMS && s.hasPending)
                                 || (t.pendingFloor == h.oldestLSN && t.pendingSinceMS == now))
            && (Due(s, now, delay) ==> t.safeFloor == s.pendingFloor)
            && (s.hasPending && !Due(s, now, delay) ==> t.hasPending && t.pendingFloor == s.pendingFloor && t.pendingSinceMS == s.pendingSinceMS)
            && (!t.hasPending ==> h.oldestLSN <= t.safeFloor)
  {
    hide MaxPageLevel;
  }

  /** The rest of the record stays valid too; it has learned the head's retention version and page levels, no more and no
      less, and nothing but these and the floors has changed. */
  lemma ObserveValid(s: State, h: Head, now: int, delay: nat)
    requires ValidState(s)
    ensures var t := ObserveHead(s, h, now, delay);
            && ValidState(t)
            && s.retentionVersion <= t.retentionVersion && h.retentionVersion <= t.retentionVersion
            && (t.retentionVersion == s.retentionVersion || t.retentionVersion == h.retentionVersion)
            && s.maxPageLevel <= t.maxPageLevel && HeadPageLevel(h) <= t.maxPageLevel
            && (t.maxPageLevel == s.maxPageLevel || t.maxPageLevel == HeadPageLevel(h))
            && t == s.(retentionVersion := t.retentionVersion, maxPageLevel := t.maxPageLevel, safeFloor := t.safeFloor, pendingFloor := t.pendingFloor,
                       pendingSinceMS := t.pendingSinceMS, hasPending := t.hasPending, pageLevel := t.pageLevel, pageAfter := t.pageAfter)
  {
    hide MaxPageLevel;
  }
}
