/** The markers memcap uses around its guidance (libexec/integrate.py). */
module Marks {
  import opened Common
  import opened Markdown

  const BEGIN: string := "<!-- memcap:begin -->"
  const END: string := "<!-- memcap:end -->"

  lemma AreMarks()
    ensures IsMark(BEGIN) && IsMark(END) && |BEGIN| == 21 && |END| == 19 && BEGIN[12] == 'b' && END[12] == 'e'
  {
  }

  lemma CharAt(body: string, i: nat)
    requires i < |BEGIN + body + END|
    ensures (BEGIN + body + END)[i]
      == if i < |BEGIN| then BEGIN[i] else if i < |BEGIN| + |body| then body[i - |BEGIN|] else END[i - |BEGIN| - |body|]
  {
  }

  /** Where a text of the two markers and a body between them has an opening bracket. */
  lemma Opens(body: string, i: nat)
    requires i < |BEGIN + body + END| && (BEGIN + body + END)[i] == '<'
    requires forall k :: 0 <= k < |body| ==> body[k] != '<'
    ensures i == 0 || i == |BEGIN| + |body|
  {
    AreMarks();
    CharAt(body, i);
  }

  lemma OccursOpens(text: string, mark: string, i: nat)
    requires Occurs(text, mark, i) && |mark| > 12
    ensures text[i] == mark[0] && text[i + 12] == mark[12]
  {
    assert text[i..i + |mark|][0] == text[i] && text[i..i + |mark|][12] == text[i + 12];
  }

  /** Guidance between them is a proper block, whatever it says, if it opens no bracket itself. */
  lemma GuidanceIsProper(body: string)
    requires forall k :: 0 <= k < |body| ==> body[k] != '<'
    ensures Proper(Block(BEGIN, END, BEGIN + body + END))
  {
    AreMarks();
    var text := BEGIN + body + END;
    var last := |BEGIN| + |body|;
    assert text[0..21] == BEGIN && text[last..last + 19] == END;
    forall i: nat ensures (Occurs(text, BEGIN, i) <==> i == 0) && (Occurs(text, END, i) <==> i == last) {
      if Occurs(text, BEGIN, i) {
        OccursOpens(text, BEGIN, i);
        Opens(body, i);
        assert text[last + 12] == END[12];
      }
      if Occurs(text, END, i) {
        OccursOpens(text, END, i);
        Opens(body, i);
        assert text[12] == BEGIN[12];
      }
    }
  }
}
