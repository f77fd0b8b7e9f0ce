/**
 What a fingerprint says about the answers of a question: its kind, but not always how many
 blanks it has (internal/questions/fingerprint.go:18-54, internal/questions/answers.go:13-33).
 */
module Identities {
  import opened Options
  import opened Ordering
  import opened Json
  import opened JsonLaws
  import opened Canonicals
  import opened Answers
  import opened Fingerprints
  import Banks

  /** The texts that name a kind of question. */
  predicate Named(t: string) {
    t in ["SingleChoice", "MultipleChoice", "MultiChoice", "Judgement", "FillBlank"]
  }

  lemma NotANumber(t: string)
    requires Named(t)
    ensures !NumberToken(t)
  {
    assert !NumberChar(t[0]);
  }

  /** Equal values read the same, unless they are numbers, and these name no kind. */
  lemma SameScalar(form: Forms, v: Json, w: Json)
    requires Sound(form) && Equal(form, v, w) && Readable(form, v)
    ensures Scalar(v) == Scalar(w) || (!Named(Scalar(v)) && !Named(Scalar(w)))
  {
    if v.Numeral? {
      if Named(Scalar(v)) {
        NotANumber(Scalar(v));
      }
      if Named(Scalar(w)) {
        NotANumber(Scalar(w));
      }
    }
  }

  lemma KindOfName(x: Members, y: Members)
    requires var t, u := ScalarOf(Find(x, "Type")), ScalarOf(Find(y, "Type"));
      t == u || (!Named(t) && !Named(u))
    ensures KindOf(x) == KindOf(y)
  {
  }

  /** The same question is of the same kind. */
  lemma SameQuestionSameKind(form: Forms, x: Members, y: Members)
    requires Sound(form) && SameQuestion(form, x, y) && Readable(form, Under(x, "Type", Null))
    ensures KindOf(x) == KindOf(y)
  {
    var v, w := Under(x, "Type", Null), Under(y, "Type", Null);
    assert Scalar(v) == ScalarOf(Find(x, "Type")) && Scalar(w) == ScalarOf(Find(y, "Type"));
    SameScalar(form, v, w);
    KindOfName(x, y);
  }

  /** The bank's assumption on fingerprints holds for the fingerprints of this project. */
  lemma FingerprintsAgreeOnKinds(form: Forms, truthy: Json -> bool, digest: string -> string, cfg: Banks.Config)
    requires Sound(form) && Injective(digest)
    requires forall c :: cfg.fingerprint(c) == FingerprintOf(form, truthy, digest, c)
    ensures Banks.KindsAgree(cfg)
  {
    forall c, d | cfg.fingerprint(c) == cfg.fingerprint(d) != "" ensures KindOf(ContentOf(c)) == KindOf(ContentOf(d)) {
      FingerprintDecides(form, truthy, digest, c, d);
      TypeReadable(form, truthy, ContentOf(c));
      SameQuestionSameKind(form, ContentOf(c), ContentOf(d));
    }
  }

  lemma TypeReadable(form: Forms, truthy: Json -> bool, members: Members)
    requires Readable(form, NormalizedOf(truthy, members, false))
    ensures Readable(form, Under(members, "Type", Null))
  {
    NormalizedIs(truthy, members);
    assert NormalizedOf(truthy, members, false).members[0].value == Under(members, "Type", Null);
  }

  /** The blanks that are part of the fingerprint. */
  function PrintedBlanks(members: Members): nat {
    |Elements(Some(Under(members, "Blanks", Under(members, "blanks", Array([])))))|
  }

  /** The same question has as many blanks, exactly if it has blanks in its fingerprint or
      the lower-case lists are of one length. */
  lemma BlanksAgree(form: Forms, x: Members, y: Members)
    requires SameQuestion(form, x, y)
    ensures BlankCount(x) == BlankCount(y) <==>
      PrintedBlanks(x) > 0 || |Elements(Find(x, "blanks"))| == |Elements(Find(y, "blanks"))|
  {
    assert PrintedBlanks(x) == PrintedBlanks(y);
    BlanksPrinted(x);
    BlanksPrinted(y);
  }

  lemma BlanksPrinted(members: Members)
    ensures BlankCount(members) ==
      if PrintedBlanks(members) > 0 then PrintedBlanks(members) else |Elements(Find(members, "blanks"))|
  {
  }

  /** An empty list of blanks hides the lower-case list from the fingerprint, but not from
      the count: one question then accepts answers that the other does not. */
  lemma HiddenBlanks(form: Forms)
    ensures var y := [Entry("Type", Text("FillBlank")), Entry("Blanks", Array([]))];
      var x := y + [Entry("blanks", Array([Null]))];
      SameQuestion(form, x, y) && BlankCount(x) == 1 && BlankCount(y) == 0
  {
    var y := [Entry("Type", Text("FillBlank")), Entry("Blanks", Array([]))];
    var e := Entry("blanks", Array([Null]));
    var x := y + [e];
    assert "Blanks"[0] != "blanks"[0] && "Type"[0] != "blanks"[0];
    forall k ensures Find(x, k) == if k == "blanks" then Some(e.value) else Find(y, k) {
      FindLast(y, e, k);
    }
    assert Find(y, "Blanks") == Some(Array([]));
    assert Find(y, "blanks") == None;
    forall v: Json ensures Equal(form, v, v) {
      EqualToItself(form, v);
    }
  }
}
