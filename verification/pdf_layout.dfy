/** The line cursor of the PDF export (Server/app/routers/feedback.py,
    `export_pdf`): the title is drawn at y = 800, record lines start at
    y = 780 and go down 20 points each; when the cursor falls below 50 a
    new page is started and the cursor goes back to 800. */
module PdfLayout {

  const TitleY: int := 800
  const FirstLineY: int := 780
  const LineStep: int := 20
  const BottomMargin: int := 50
  const PageTopY: int := 800

  /** After a record line drawn at `y`, the cursor drops by one step and a
      page break happens when it falls below the margin. */
  predicate BreaksAfter(y: int) {
    y - LineStep < BottomMargin
  }

  function NextY(y: int): int {
    if BreaksAfter(y) then PageTopY else y - LineStep
  }

  /** The y at which the record line with 0-based position `k` is drawn. */
  function LineY(k: nat): (y: int)
    ensures y <= PageTopY
  {
    if k == 0 then FirstLineY else NextY(LineY(k - 1))
  }

  /** The number of `showPage` calls made while drawing `n` record lines. */
  function PageBreaks(n: nat): (b: nat)
    ensures b <= n
  {
    if n == 0 then 0 else PageBreaks(n - 1) + (if BreaksAfter(LineY(n - 1)) then 1 else 0)
  }

  /** Every record line lies on the 20-point grid between 60 and 800, so
      always inside the page's 50..800 band. */
  lemma {:induction false} LineYInBand(k: nat)
    ensures 60 <= LineY(k) <= 800 && LineY(k) % 20 == 0
  {
    if k > 0 {
      LineYInBand(k - 1);
    }
  }

  /** An independent description of the cursor: the first page holds 37
      record lines (780 down to 60), every later page 38 (800 down to 60). */
  lemma {:induction false} LineYClosedForm(k: nat)
    ensures LineY(k) == if k < 37 then 780 - 20 * k else 800 - 20 * ((k - 37) % 38)
  {
    if k > 0 {
      LineYClosedForm(k - 1);
      if k >= 38 {
        var m := (k - 38) % 38;
        var q := (k - 38) / 38;
        assert k - 38 == 38 * q + m;
        if m == 37 {
          assert k - 37 == 38 * (q + 1);
          assert (k - 37) % 38 == 0;
        } else {
          assert k - 37 == 38 * q + (m + 1);
          assert (k - 37) % 38 == m + 1;
        }
      }
    }
  }

  /** A page break follows record lines 36, 74, 112, ...: one after the
      first 37 lines, then one per further 38. */
  lemma {:induction false} PageBreaksClosedForm(n: nat)
    ensures PageBreaks(n) == if n < 37 then 0 else (n - 37) / 38 + 1
  {
    if n > 0 {
      PageBreaksClosedForm(n - 1);
      LineYClosedForm(n - 1);
      if n >= 38 {
        var m := (n - 38) % 38;
        var q := (n - 38) / 38;
        assert n - 38 == 38 * q + m;
        if m == 37 {
          assert n - 37 == 38 * (q + 1);
          assert (n - 37) / 38 == q + 1;
        } else {
          assert n - 37 == 38 * q + (m + 1);
          assert (n - 37) / 38 == q;
        }
      }
    }
  }
}
