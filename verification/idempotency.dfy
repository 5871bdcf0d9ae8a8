/** Idempotency keys that make a retried submission safe: fresh keys for
    benchmark and feedback submissions, and the deterministic keys given to
    queued records saved before keys were persisted. */
module Idempotency {
  import opened Text

  const SubmitPrefix: string := "fps-tracker-submit-"
  const FeedbackPrefix: string := "fps-tracker-feedback-"
  const LegacyPendingPrefix: string := "fps-tracker-pending-"
  const LegacyPendingFeedbackPrefix: string := "fps-tracker-pending-feedback-"

  /** A fresh benchmark key; `uuid` is the simple (hyphen-free) form of a
      random version-4 UUID, which the model takes as an input. */
  function NewSubmitKey(uuid: string): (k: string)
    ensures StartsWith(k, SubmitPrefix) && k[|SubmitPrefix|..] == uuid
  {
    SubmitPrefix + uuid
  }

  /** A fresh feedback key. */
  function NewFeedbackKey(uuid: string): (k: string)
    ensures StartsWith(k, FeedbackPrefix) && k[|FeedbackPrefix|..] == uuid
  {
    FeedbackPrefix + uuid
  }

  /** Key for a legacy queued benchmark, derived from its pending id. */
  function LegacyPendingKey(pendingId: string): (k: string)
    ensures StartsWith(k, LegacyPendingPrefix) && k[|LegacyPendingPrefix|..] == pendingId
  {
    LegacyPendingPrefix + pendingId
  }

  /** Key for a legacy queued feedback record. */
  function LegacyPendingFeedbackKey(pendingId: string): (k: string)
    ensures StartsWith(k, LegacyPendingFeedbackPrefix) && k[|LegacyPendingFeedbackPrefix|..] == pendingId
  {
    LegacyPendingFeedbackPrefix + pendingId
  }

  /** Different pending ids give different legacy keys, in both namespaces. */
  lemma LegacyKeysInjective(a: string, b: string)
    ensures LegacyPendingKey(a) == LegacyPendingKey(b) ==> a == b
    ensures LegacyPendingFeedbackKey(a) == LegacyPendingFeedbackKey(b) ==> a == b
  {
    if LegacyPendingKey(a) == LegacyPendingKey(b) {
      assert a == LegacyPendingKey(a)[|LegacyPendingPrefix|..];
    }
    if LegacyPendingFeedbackKey(a) == LegacyPendingFeedbackKey(b) {
      assert a == LegacyPendingFeedbackKey(a)[|LegacyPendingFeedbackPrefix|..];
    }
  }

  /** The legacy namespaces overlap: the feedback prefix extends the
      benchmark prefix, so a benchmark record whose id starts with
      `feedback-` gets exactly the key of a feedback record. */
  lemma LegacyNamespacesOverlap(x: string)
    ensures LegacyPendingKey("feedback-" + x) == LegacyPendingFeedbackKey(x)
  {
    assert LegacyPendingPrefix + ("feedback-" + x) == (LegacyPendingPrefix + "feedback-") + x;
  }

  /** Fresh benchmark and feedback keys never collide with each other or
      with a legacy key: the prefixes differ at the 13th character. */
  lemma FreshKeysDisjoint(u: string, v: string, id: string)
    ensures NewSubmitKey(u) != NewFeedbackKey(v)
    ensures NewSubmitKey(u) != LegacyPendingKey(id)
    ensures NewSubmitKey(u) != LegacyPendingFeedbackKey(id)
    ensures NewFeedbackKey(u) != LegacyPendingKey(id)
    ensures NewFeedbackKey(u) != LegacyPendingFeedbackKey(id)
  {
    assert NewSubmitKey(u)[12] == 's';
    assert NewFeedbackKey(v)[12] == 'f';
    assert LegacyPendingKey(id)[12] == 'p';
    assert LegacyPendingFeedbackKey(id)[12] == 'p';
  }
}
