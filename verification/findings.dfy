/** `update_feedback` copies the body's sentiment onto the stored record
    without checking it: the update body types it as a plain string, and
    the handler assigns it and saves the record. An update can therefore
    store a sentiment outside the three names. In the model, where stored
    records are read back as they were written, the manager dashboard's
    three counts then stop adding up to the feedback count; a database
    layer that validates documents on load would instead refuse to read
    the record back. The store's `UpdateFeedback` refuses such an update;
    the lemmas here are about the assignment as written,
    `Queries.OverwriteContent`. */
module Findings {
  import opened Outcomes
  import opened Records
  import opened Schemas
  import opened Sequences
  import opened Queries

  /** The assignment as written turns a well-formed record into one that is
      not, whenever the new sentiment is not one of the three names. */
  lemma UpdateAsWrittenBreaksWellFormed(fb: Feedback, upd: FeedbackCreate)
    requires WellFormed(fb) && !IsSentiment(upd.sentiment)
    ensures !WellFormed(OverwriteContent(fb, upd))
    ensures OverwriteContent(fb, upd).sentiment == upd.sentiment
  {
  }

  /** One record whose sentiment is outside the three names is counted
      under none of them: the three counts fall one short. */
  lemma {:induction false} OneBadSentimentMissesOne(fbs: seq<Feedback>, i: nat)
    requires i < |fbs| && !IsSentiment(fbs[i].sentiment)
    requires forall k :: 0 <= k < |fbs| && k != i ==> IsSentiment(fbs[k].sentiment)
    ensures CountSentiment(fbs, "positive") + CountSentiment(fbs, "neutral")
          + CountSentiment(fbs, "negative") == |fbs| - 1
  {
    var tail := fbs[1..];
    if i == 0 {
      forall fb | fb in tail ensures IsSentiment(fb.sentiment) {
        var k :| 0 <= k < |tail| && tail[k] == fb;
        assert fb == fbs[k + 1];
      }
      SentimentCountsCoverAll(tail);
    } else {
      assert IsSentiment(fbs[0].sentiment);
      assert forall k :: 0 <= k < |tail| && k != i - 1 ==> tail[k] == fbs[k + 1];
      OneBadSentimentMissesOne(tail, i - 1);
    }
  }

  /** A concrete run: one positive record, updated as written to
      "excellent", leaves its employee's dashboard row at one record and
      zero positive, neutral and negative. */
  lemma DashboardAfterUpdateAsWritten()
    ensures var fb := NewFeedback(0, "m1", "e1", "good", "none", "positive", 0);
            var upd := FeedbackCreate("m1", "e1", "good", "none", "excellent", None, None);
            var emp := User("Eve", "eve@example.com", "pw", Employee, "e1", None);
            var row := StatsRow(emp, [OverwriteContent(fb, upd)]);
            row.feedbackCount == 1 && row.positive + row.neutral + row.negative == 0
  {
    var fb := NewFeedback(0, "m1", "e1", "good", "none", "positive", 0);
    var upd := FeedbackCreate("m1", "e1", "good", "none", "excellent", None, None);
    var after := OverwriteContent(fb, upd);
    assert FeedbackOf([after], "e1") == [after];
    OneBadSentimentMissesOne([after], 0);
  }
}
