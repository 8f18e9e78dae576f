/**
  The change detector's specification: the ledger of chunk hashes after a pass,
  the chunks a pass counts as changed, the stored template timestamp and the
  decision whether the pass builds the page at all.
*/
module ChangeDetection {
  import opened Wrappers
  import opened Chunks

  /** Last-seen hash per chunk name. */
  type Ledger = map<string, string>

  function Names(chunks: seq<Chunk>): set<string> {
    set c | c in chunks :: c.name
  }

  /** No two chunks of the pass share a name. */
  ghost predicate DistinctNames(chunks: seq<Chunk>) {
    forall i, j :: 0 <= i < j < |chunks| ==> chunks[i].name != chunks[j].name
  }

  /** No chunk after index `k` has the name of `chunks[k]`. */
  ghost predicate LastWithItsName(chunks: seq<Chunk>, k: int)
    requires 0 <= k < |chunks|
  {
    forall l :: k < l < |chunks| ==> chunks[l].name != chunks[k].name
  }

  /**
    The ledger after writing every chunk's hash under its name, in pass order:
    every name of the pass is present and holds the hash of the last chunk with
    that name; names outside the pass keep their entries.
  */
  function Record(ledger: Ledger, chunks: seq<Chunk>): (r: Ledger)
    ensures r.Keys == ledger.Keys + Names(chunks)
    ensures forall n :: n in ledger && n !in Names(chunks) ==> r[n] == ledger[n]
    ensures forall k :: 0 <= k < |chunks| && LastWithItsName(chunks, k) ==> r[chunks[k].name] == chunks[k].hash
  {
    if chunks == [] then ledger
    else
      var init := chunks[..|chunks| - 1];
      var last := chunks[|chunks| - 1];
      assert chunks == init + [last];
      assert forall k :: 0 <= k < |init| ==> init[k] == chunks[k];
      Record(ledger, init)[last.name := last.hash]
  }

  /** `chunk.hash !== oldVersion`: an absent entry counts as a difference. */
  predicate IsChanged(ledger: Ledger, c: Chunk) {
    !(c.name in ledger && ledger[c.name] == c.hash)
  }

  /** The chunks of the pass whose hash differs from the entry in force when the chunk is reached, in pass order. */
  function Changed(ledger: Ledger, chunks: seq<Chunk>): seq<Chunk> {
    if chunks == [] then []
    else
      var init := chunks[..|chunks| - 1];
      var last := chunks[|chunks| - 1];
      Changed(ledger, init) + if IsChanged(Record(ledger, init), last) then [last] else []
  }

  /** With distinct names, a chunk counts as changed exactly when its hash differs from the ledger entry before the pass. */
  lemma {:induction false} ChangedAgainstPriorLedger(ledger: Ledger, chunks: seq<Chunk>)
    requires DistinctNames(chunks)
    ensures forall c :: c in Changed(ledger, chunks) <==> c in chunks && IsChanged(ledger, c)
  {
    if chunks != [] {
      var init := chunks[..|chunks| - 1];
      var last := chunks[|chunks| - 1];
      assert chunks == init + [last];
      ChangedAgainstPriorLedger(ledger, init);
      assert last.name !in Names(init);
      assert IsChanged(Record(ledger, init), last) == IsChanged(ledger, last);
      forall c | c in init ensures c != last {
      }
    }
  }

  /** Starting from an empty ledger, every chunk of a pass with distinct names counts as changed. */
  lemma {:induction false} FirstPassAllChanged(chunks: seq<Chunk>)
    requires DistinctNames(chunks)
    ensures Changed(map[], chunks) == chunks
  {
    if chunks != [] {
      var init := chunks[..|chunks| - 1];
      var last := chunks[|chunks| - 1];
      assert chunks == init + [last];
      FirstPassAllChanged(init);
      assert last.name !in Names(init);
      assert last.name !in Record(map[], init);
      assert IsChanged(Record(map[], init), last);
    }
  }

  /** A chunk whose hash equals its ledger entry is not changed, and its entry stays as it was. */
  lemma UnchangedChunkKeepsEntry(ledger: Ledger, chunks: seq<Chunk>, k: int)
    requires DistinctNames(chunks) && 0 <= k < |chunks|
    requires chunks[k].name in ledger && ledger[chunks[k].name] == chunks[k].hash
    ensures chunks[k] !in Changed(ledger, chunks)
    ensures Record(ledger, chunks)[chunks[k].name] == ledger[chunks[k].name]
  {
    ChangedAgainstPriorLedger(ledger, chunks);
    assert LastWithItsName(chunks, k);
  }

  /** JavaScript truthiness of a timestamp: absent and 0 are falsy. */
  predicate Truthy(t: Option<int>) {
    t.Some? && t.value != 0
  }

  /** `this.lastTimestamp !== templateTimestamp`. */
  predicate TemplateChanged(last: int, current: Option<int>) {
    current != Some(last)
  }

  /**
    `templateTimestamp || this.lastTimestamp`: the stored timestamp after a pass.
    A truthy timestamp is stored, so the next pass with the same timestamp sees
    no template change; an absent one keeps the old value, so every pass without
    a timestamp counts as a template change.
  */
  function NextTimestamp(last: int, current: Option<int>): (t: int)
    ensures Truthy(current) ==> t == current.value && !TemplateChanged(t, current)
    ensures !Truthy(current) ==> t == last
  {
    if Truthy(current) then current.value else last
  }

  /**
    Two passes in a row that see the same template timestamp: the second counts
    as a template change exactly when the timestamp is falsy (absent or 0) and
    differs from the value stored before the first pass.
  */
  lemma SameTimestampTwice(last: int, current: Option<int>)
    ensures TemplateChanged(NextTimestamp(last, current), current) <==> !Truthy(current) && current != Some(last)
  {
  }

  /** `changedChunks.some(c => relevantChunks[c.name] === true)`. */
  predicate AnyRelevant(changed: seq<Chunk>, relevant: set<string>) {
    exists c :: c in changed && c.name in relevant
  }

  /**
    The two early returns of the handler. The page is built exactly when the
    template changed, or when hashing is on and a relevant chunk changed; with
    hashing off a changed chunk alone never builds.
  */
  function ShouldBuild(relevantChanged: bool, templateChanged: bool, hashOn: bool): (b: bool)
    ensures b <==> templateChanged || (hashOn && relevantChanged)
    ensures !hashOn ==> (b <==> templateChanged)
    ensures !relevantChanged && !templateChanged ==> !b
  {
    if !relevantChanged && !templateChanged then false
    else if !hashOn && !templateChanged then false
    else true
  }
}
