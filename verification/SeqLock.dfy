/**
 A sequence lock: words guarded by a version that is odd while they are being
 written.  Building blocks for the hot table, the log ring and the mailboxes.
 `history` records every published content; version `2 * n` shows `history[n]`.
 */
module SeqLock {

  datatype Lock<W> = Lock(version: nat, words: seq<W>, history: seq<seq<W>>)

  /** A read under way: the version seen first, the words looked at and what they held. */
  datatype Read<W> = Read(before: nat, at: seq<nat>, got: seq<W>)

  predicate Writing<W>(l: Lock<W>) {
    l.version % 2 == 1
  }

  // ---------- the writer's steps ----------

  function BeginWrite<W>(l: Lock<W>): Lock<W>
    requires !Writing(l)
  {
    l.(version := l.version + 1)
  }

  function Store<W>(l: Lock<W>, i: nat, w: W): Lock<W>
    requires Writing(l) && i < |l.words|
  {
    l.(words := l.words[i := w])
  }

  function EndWrite<W>(l: Lock<W>): Lock<W>
    requires Writing(l)
  {
    l.(version := l.version + 1, history := l.history + [l.words])
  }

  // ---------- the reader's steps ----------

  function Begin<W>(l: Lock<W>): Read<W>
    requires !Writing(l)
  {
    Read(l.version, [], [])
  }

  function Load<W>(l: Lock<W>, r: Read<W>, i: nat): Read<W>
    requires i < |l.words|
  {
    r.(at := r.at + [i], got := r.got + [l.words[i]])
  }

  predicate Accepts<W>(l: Lock<W>, r: Read<W>) {
    l.version == r.before
  }

  // ---------- what holds between steps ----------

  ghost predicate LockOk<W>(l: Lock<W>) {
    && |l.history| == l.version / 2 + 1
    && (!Writing(l) ==> l.words == l.history[l.version / 2])
    && forall n :: 0 <= n < |l.history| ==> |l.history[n]| == |l.words|
  }

  ghost predicate ReadOk<W>(l: Lock<W>, r: Read<W>) {
    && r.before % 2 == 0 && r.before <= l.version
    && |r.got| == |r.at|
    && (forall j :: 0 <= j < |r.at| ==> r.at[j] < |l.words|)
    && (l.version == r.before ==> forall j :: 0 <= j < |r.at| ==> r.got[j] == l.words[r.at[j]])
  }

  ghost predicate Matches<W>(content: seq<W>, r: Read<W>) {
    && |r.got| == |r.at|
    && forall j :: 0 <= j < |r.at| ==> r.at[j] < |content| && r.got[j] == content[r.at[j]]
  }

  /** The loaded words are those of one published content. */
  ghost predicate Whole<W>(l: Lock<W>, r: Read<W>) {
    && r.before % 2 == 0 && r.before / 2 < |l.history|
    && Matches(l.history[r.before / 2], r)
  }

  lemma WriteSteps<W>(l: Lock<W>)
    requires LockOk(l)
    ensures !Writing(l) ==> LockOk(BeginWrite(l))
    ensures Writing(l) ==> LockOk(EndWrite(l))
    ensures Writing(l) ==> forall i: nat, w | i < |l.words| :: LockOk(Store(l, i, w))
  {
  }

  /** No step of the writer can make a read under way accept mixed words. */
  lemma WriteKeepsRead<W>(l: Lock<W>, m: Lock<W>, r: Read<W>)
    requires LockOk(l) && ReadOk(l, r)
    requires || (!Writing(l) && m == BeginWrite(l))
             || (Writing(l) && m == EndWrite(l))
             || (Writing(l) && exists i: nat, w :: i < |l.words| && m == Store(l, i, w))
    ensures ReadOk(m, r)
    ensures Whole(l, r) ==> Whole(m, r)
  {
  }

  lemma LoadKeepsRead<W>(l: Lock<W>, r: Read<W>, i: nat)
    requires LockOk(l) && ReadOk(l, r) && i < |l.words|
    ensures ReadOk(l, Load(l, r, i))
  {
  }

  /** An accepted read is one published content: never torn. */
  lemma AcceptedIsWhole<W>(l: Lock<W>, r: Read<W>)
    requires LockOk(l) && ReadOk(l, r) && Accepts(l, r)
    ensures Whole(l, r)
    ensures l.history[r.before / 2] == l.words
  {
  }
}
