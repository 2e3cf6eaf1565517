/// The page generator `generateHTML` (src/App.tsx, lines 29-392): one template literal
/// whose substitutions are the fields of the form, inserted as they are, with no escaping.
module Template {
  import opened Phrases

  /** `buttonAnimation` (src/App.tsx, line 13). */
  datatype Animation = Grow | Random

  /** The string the field holds, as the generated script compares it. */
  function AnimationName(a: Animation): (name: string)
    ensures name == "random" <==> a == Random
  {
    match a
    case Grow => "grow"
    case Random => "random"
  }

  /** The form's record (src/App.tsx, lines 4-14). */
  datatype FormData = FormData(
    title: string,
    subtitle: string,
    firstImage: string,
    secondImage: string,
    yesClickText: string,
    yesButtonText: string,
    noButtonPhrases: string,
    backgroundImage: string,
    buttonAnimation: Animation)

  /** The value of a template literal (ECMA-262, section 13.2.8): its cooked strings with
      the substitutions between them, each already a string. */
  function TemplateLiteral(quasis: seq<string>, substitutions: seq<string>): string
    requires |quasis| == |substitutions| + 1
  {
    if substitutions == [] then quasis[0]
    else quasis[0] + substitutions[0] + TemplateLiteral(quasis[1..], substitutions[1..])
  }

  /** `needle` occurs in `s` starting at position `i`. */
  ghost predicate OccursAt(s: string, needle: string, i: int) {
    0 <= i <= |s| - |needle| && s[i..i + |needle|] == needle
  }

  /** `needle` occurs somewhere in `s`. */
  ghost predicate Contains(s: string, needle: string) {
    exists i :: OccursAt(s, needle, i)
  }

  lemma ContainsInfix(a: string, x: string, b: string)
    ensures Contains(a + x + b, x)
  {
    assert OccursAt(a + x + b, x, |a|);
  }

  /** If `s` contains `t` and `t` is `a + x + b`, then `s` contains `x`. */
  lemma ContainsWithin(s: string, t: string, a: string, x: string, b: string)
    requires Contains(s, t) && t == a + x + b
    ensures Contains(s, x)
  {
    var i :| OccursAt(s, t, i);
    forall m | 0 <= m < |x| ensures s[i + |a| + m] == x[m] {
      assert s[i + |a| + m] == s[i..i + |t|][|a| + m] == t[|a| + m];
    }
    assert s[i + |a|..i + |a| + |x|] == x;
    assert OccursAt(s, x, i + |a|);
  }

  /** If `s` contains `t` followed by something, it contains `t`. */
  lemma ContainsPrefix(s: string, t: string, x: string)
    requires Contains(s, t) && x <= t
    ensures Contains(s, x)
  {
    ContainsWithin(s, t, [], x, t[|x|..]);
  }

  /** The text up to and including the `j`-th cooked string is a prefix of the whole. */
  lemma {:induction false} TemplatePrefix(quasis: seq<string>, substitutions: seq<string>, j: nat)
    requires |quasis| == |substitutions| + 1 && j <= |substitutions|
    ensures TemplateLiteral(quasis[..j + 1], substitutions[..j]) <= TemplateLiteral(quasis, substitutions)
  {
    if j > 0 {
      TemplatePrefix(quasis[1..], substitutions[1..], j - 1);
      assert quasis[..j + 1][1..] == quasis[1..][..j];
      assert substitutions[..j][1..] == substitutions[1..][..j - 1];
    }
  }

  /** Every stretch of a template literal, from the `k`-th cooked string to the `j`-th,
      occurs in its value. */
  lemma {:induction false} TemplateContains(quasis: seq<string>, substitutions: seq<string>, k: nat, j: nat)
    requires |quasis| == |substitutions| + 1 && k <= j <= |substitutions|
    ensures Contains(TemplateLiteral(quasis, substitutions), TemplateLiteral(quasis[k..j + 1], substitutions[k..j]))
  {
    var whole := TemplateLiteral(quasis, substitutions);
    if k == 0 {
      TemplatePrefix(quasis, substitutions, j);
      var part := TemplateLiteral(quasis[..j + 1], substitutions[..j]);
      assert quasis[0..j + 1] == quasis[..j + 1] && substitutions[0..j] == substitutions[..j];
      assert OccursAt(whole, part, 0);
    } else {
      assert substitutions != [];
      var head := quasis[0] + substitutions[0];
      var tail := TemplateLiteral(quasis[1..], substitutions[1..]);
      TemplateUnfold(quasis, substitutions);
      TemplateContains(quasis[1..], substitutions[1..], k - 1, j - 1);
      SliceOfTail(quasis, k, j + 1);
      SliceOfTail(substitutions, k, j);
      ContainsAfter(head, tail, TemplateLiteral(quasis[k..j + 1], substitutions[k..j]));
    }
  }

  /** A slice of the tail is a slice of the whole, one position further on. */
  lemma SliceOfTail<T>(xs: seq<T>, from: nat, to: nat)
    requires 1 <= from <= to <= |xs|
    ensures xs[1..][from - 1..to - 1] == xs[from..to]
  {
    assert |xs[1..][from - 1..to - 1]| == to - from;
    forall i | 0 <= i < to - from
      ensures xs[1..][from - 1..to - 1][i] == xs[from..to][i]
    {
    }
  }

  lemma TemplateUnfold(quasis: seq<string>, substitutions: seq<string>)
    requires |quasis| == |substitutions| + 1 && substitutions != []
    ensures TemplateLiteral(quasis, substitutions)
            == quasis[0] + substitutions[0] + TemplateLiteral(quasis[1..], substitutions[1..])
  {
  }

  /** What a string contains, it still contains with anything put in front. */
  lemma ContainsAfter(head: string, tail: string, x: string)
    requires Contains(tail, x)
    ensures Contains(head + tail, x)
  {
    var i :| OccursAt(tail, x, i);
    assert (head + tail)[|head| + i..|head| + i + |x|] == tail[i..i + |x|];
    assert OccursAt(head + tail, x, |head| + i);
  }

  /** A substitution occurs with the cooked strings on both sides of it. */
  lemma TemplateContainsOne(quasis: seq<string>, substitutions: seq<string>, k: nat)
    requires |quasis| == |substitutions| + 1 && k < |substitutions|
    ensures Contains(TemplateLiteral(quasis, substitutions), quasis[k] + substitutions[k] + quasis[k + 1])
  {
    TemplateContains(quasis, substitutions, k, k + 1);
    var q, s := quasis[k..k + 2], substitutions[k..k + 1];
    assert s[1..] == [] && q[1..] == [quasis[k + 1]];
    assert TemplateLiteral(q[1..], s[1..]) == quasis[k + 1];
  }

  /** A template literal with two substitutions. */
  lemma TemplateOfTwo(a: string, x: string, b: string, y: string, c: string)
    ensures TemplateLiteral([a, b, c], [x, y]) == a + x + b + y + c
  {
    assert [a, b, c][1..] == [b, c] && [x, y][1..] == [y];
    assert [b, c][1..] == [c] && [y][1..] == [];
    assert TemplateLiteral([b, c], [y]) == b + y + c;
  }

  /** Two consecutive substitutions occur with the three cooked strings around them. */
  lemma TemplateContainsTwo(quasis: seq<string>, substitutions: seq<string>, k: nat)
    requires |quasis| == |substitutions| + 1 && k + 1 < |substitutions|
    ensures Contains(TemplateLiteral(quasis, substitutions),
                     quasis[k] + substitutions[k] + quasis[k + 1] + substitutions[k + 1] + quasis[k + 2])
  {
    TemplateContains(quasis, substitutions, k, k + 2);
    assert quasis[k..k + 3] == [quasis[k], quasis[k + 1], quasis[k + 2]];
    assert substitutions[k..k + 2] == [substitutions[k], substitutions[k + 1]];
    TemplateOfTwo(quasis[k], substitutions[k], quasis[k + 1], substitutions[k + 1], quasis[k + 2]);
  }

  /** Every cooked string occurs in the value. */
  lemma TemplateContainsQuasi(quasis: seq<string>, substitutions: seq<string>, k: nat)
    requires |quasis| == |substitutions| + 1 && k <= |substitutions|
    ensures Contains(TemplateLiteral(quasis, substitutions), quasis[k])
  {
    TemplateContains(quasis, substitutions, k, k);
    assert quasis[k..k + 1] == [quasis[k]] && substitutions[k..k] == [];
  }

  /** `s` ends with `suffix`. */
  ghost predicate EndsWith(s: string, suffix: string) {
    |suffix| <= |s| && s[|s| - |suffix|..] == suffix
  }

  lemma EndsWithAppend(a: string, b: string)
    ensures EndsWith(a + b, b)
  {
    assert (a + b)[|a|..] == b;
  }

  /** `EndsWithAppend` for a suffix that is the second half of a pair. */
  lemma EndsWithNested(a: string, b: string, c: string)
    ensures EndsWith(a + (b + c), c)
  {
    assert (a + (b + c))[|a| + |b|..] == c;
  }

  /** `StartsWithAppend` for four pieces. */
  lemma StartsWithAppend4(a: string, b: string, c: string, d: string)
    ensures a <= a + b + c + d
  {
    assert (a + b + c + d)[..|a|] == a;
  }

  lemma StartsWithAppend(a: string, b: string, c: string)
    ensures a <= a + b + c
  {
    assert (a + b + c)[..|a|] == a;
  }

  lemma SplitAtSuffix(s: string, suffix: string) returns (pre: string)
    requires EndsWith(s, suffix)
    ensures s == pre + suffix
  {
    pre := s[..|s| - |suffix|];
    assert s == pre + s[|s| - |suffix|..];
  }

  lemma SplitAtPrefix(s: string, prefix: string) returns (post: string)
    requires prefix <= s
    ensures s == prefix + post
  {
    post := s[|prefix|..];
    assert s == s[..|prefix|] + post;
  }

  /** Regrouping of a concatenation around the piece `x`, used to locate a substitution. */
  lemma Regroup(pre: string, before: string, x: string, after: string, post: string)
    ensures (pre + before) + x + (after + post) == pre + (before + x + after) + post
  {
  }

  /** Associativity of four pieces, used to locate two neighbouring substitutions. */
  lemma Regroup4(a: string, b: string, c: string, d: string)
    ensures a + b + c + d == a + (b + c + d)
  {
  }

  /** A substitution occurs between the end of the cooked string before it and the
      start of the one after it. */
  lemma TemplateContainsHole(quasis: seq<string>, substitutions: seq<string>, k: nat,
                             before: string, after: string)
    requires |quasis| == |substitutions| + 1 && k < |substitutions|
    requires EndsWith(quasis[k], before) && after <= quasis[k + 1]
    ensures Contains(TemplateLiteral(quasis, substitutions), before + substitutions[k] + after)
  {
    TemplateContainsOne(quasis, substitutions, k);
    var pre := SplitAtSuffix(quasis[k], before);
    var post := SplitAtPrefix(quasis[k + 1], after);
    Regroup(pre, before, substitutions[k], after, post);
    ContainsWithin(TemplateLiteral(quasis, substitutions), quasis[k] + substitutions[k] + quasis[k + 1],
                   pre, before + substitutions[k] + after, post);
  }

  /** Two consecutive substitutions occur with the cooked string between them, after the
      end of the cooked string before them and before the start of the one after them. */
  lemma TemplateContainsHoles(quasis: seq<string>, substitutions: seq<string>, k: nat,
                              before: string, after: string)
    requires |quasis| == |substitutions| + 1 && k + 1 < |substitutions|
    requires EndsWith(quasis[k], before) && after <= quasis[k + 2]
    ensures Contains(TemplateLiteral(quasis, substitutions),
                     before + substitutions[k] + quasis[k + 1] + substitutions[k + 1] + after)
  {
    TemplateContainsTwo(quasis, substitutions, k);
    var pre := SplitAtSuffix(quasis[k], before);
    var post := SplitAtPrefix(quasis[k + 2], after);
    var mid := substitutions[k] + quasis[k + 1] + substitutions[k + 1];
    Regroup4(quasis[k], substitutions[k], quasis[k + 1], substitutions[k + 1]);
    Regroup4(before, substitutions[k], quasis[k + 1], substitutions[k + 1]);
    Regroup(pre, before, mid, after, post);
    ContainsWithin(TemplateLiteral(quasis, substitutions), quasis[k] + mid + quasis[k + 2],
                   pre, before + mid + after, post);
  }

  /** A fixed piece of a cooked string occurs in the value. */
  lemma TemplateContainsFixed(quasis: seq<string>, substitutions: seq<string>, k: nat, fixed: string)
    requires |quasis| == |substitutions| + 1 && k <= |substitutions|
    requires Contains(quasis[k], fixed)
    ensures Contains(TemplateLiteral(quasis, substitutions), fixed)
  {
    TemplateContainsQuasi(quasis, substitutions, k);
    var whole := TemplateLiteral(quasis, substitutions);
    var i :| OccursAt(whole, quasis[k], i);
    var j :| OccursAt(quasis[k], fixed, j);
    ContainsWithin(whole, quasis[k], quasis[k][..j], fixed, quasis[k][j + |fixed|..]);
  }

  // The cooked strings of the template (src/App.tsx, lines 31-391). The markup is
  // reproduced; of the style sheet (lines 39-290) only the two rules that hold
  // substitutions are kept: their opening line, the layout declaration just before the
  // background (lines 53 and 178) and the two background declarations; of the script
  // only the declarations and the two tests that hold substitutions.

  const Indent8 := "\n        "
  const Indent12 := "\n            "
  const DocumentHead := "\n<!DOCTYPE html>\n<html lang=\"en\">\n<head>\n    <meta charset=\"UTF-8\">\n    <meta name=\"viewport\" content=\"width=device-width, initial-scale=1.0\">\n    "
  const TitleOpen := "<title>"
  const TitleClose := "</title>"
  const StyleOpen := "\n    <link href=\"https://fonts.googleapis.com/css2?family=Poppins:wght@300;400;500;600;700&display=swap\" rel=\"stylesheet\">\n    <style>\n"
  const BodyRuleOpen := "        body {\n"
  const BodyLayoutEnd := "            align-items: center;\n            "
  const BackgroundProperty := "background: "
  const BackgroundImageProperty := ";\n            background-image: "
  const BodyRuleClose := "\n        }\n"
  const SuccessRuleOpen := "        .success-container {\n"
  const SuccessLayoutEnd := "            justify-content: center;\n            "
  const SuccessRuleClose := "\n        }\n"
  const StyleClose := "    </style>\n</head>\n<body>\n    <div class=\"container\" id=\"mainContainer\">\n        "
  const HeadingOpen := "<h1 id=\"title\">"
  const HeadingClose := "</h1>"
  const SubtitleOpen := "<p id=\"subtitle\">"
  const ParagraphClose := "</p>"
  const ImageSource := "<img src=\""
  const ValentineImageClose := "\" alt=\"Valentine\" class=\"image\" id=\"valentineImage\">"
  const ButtonsOpen := "\n        <div class=\"buttons\" id=\"buttonContainer\">\n            "
  const YesButtonOpen := "<button class=\"yes-btn\" id=\"yesBtn\">"
  const ButtonClose := "</button>"
  const NoButton := "<button class=\"no-btn\" id=\"noBtn\">No</button>"
  const SuccessContainerOpen := "\n        </div>\n    </div>\n\n    <div class=\"success-container\" id=\"successContainer\">\n        "
  const SuccessImageClose := "\" alt=\"Success\" class=\"success-image\">"
  const SuccessTextOpen := "<p class=\"success-text\">"
  const ScriptOpen := "\n    </div>\n\n    <script>\n        "
  const PhrasesDeclaration := "const phrases = "
  const StateDeclarations := "\n        let phraseIndex = 0;\n        let yesScale = 1;\n        let isTransitioning = false;\n        let isFirstClick = true;\n"
  const FirstClickTest := "            if (isFirstClick && '"
  const ModeTestClose := "' === 'random') {\n"
  const ModeTest := "            if ('"
  const DocumentEnd := "    </script>\n</body>\n</html>"

  const Gradient := "linear-gradient(135deg, #ff9a9e 0%, #fad0c4 100%)"

  /** The `background` value of both scenes (src/App.tsx, lines 54 and 179): the empty
      string is the only falsy string. */
  function BackgroundValue(backgroundImage: string): string {
    if backgroundImage != "" then "transparent" else Gradient
  }

  /** The `background-image` value of both scenes (src/App.tsx, lines 55 and 180), with
      the nested template literal `url('${backgroundImage}')`. */
  function BackgroundImageValue(backgroundImage: string): string {
    if backgroundImage != "" then TemplateLiteral(["url('", "')"], [backgroundImage]) else "none"
  }

  /** An empty field gives the pink gradient and no image; any other value, even one of
      spaces, gives a transparent background with that value as the image URL. */
  lemma BackgroundChoice(backgroundImage: string)
    ensures backgroundImage == "" ==>
      BackgroundValue(backgroundImage) == Gradient && BackgroundImageValue(backgroundImage) == "none"
    ensures backgroundImage != "" ==>
      BackgroundValue(backgroundImage) == "transparent"
      && BackgroundImageValue(backgroundImage) == "url('" + backgroundImage + "')"
  {
    if backgroundImage != "" {
      var q, s := ["url('", "')"], [backgroundImage];
      assert q[1..] == ["')"] && s[1..] == [];
      assert TemplateLiteral(q[1..], s[1..]) == "')";
    }
  }

  const Quasis: seq<string> := [
    DocumentHead + TitleOpen,
    TitleClose + (StyleOpen + BodyRuleOpen) + (BodyLayoutEnd + BackgroundProperty),
    BackgroundImageProperty,
    ";" + (BodyRuleClose + SuccessRuleOpen) + (SuccessLayoutEnd + BackgroundProperty),
    BackgroundImageProperty,
    ";" + SuccessRuleClose + (StyleClose + HeadingOpen),
    HeadingClose + Indent8 + SubtitleOpen,
    ParagraphClose + Indent8 + ImageSource,
    ValentineImageClose + ButtonsOpen + YesButtonOpen,
    ButtonClose + Indent12 + NoButton + (SuccessContainerOpen + ImageSource),
    SuccessImageClose + Indent8 + SuccessTextOpen,
    ParagraphClose + ScriptOpen + PhrasesDeclaration,
    ";" + StateDeclarations + FirstClickTest,
    ModeTestClose + ModeTest,
    ModeTestClose + DocumentEnd
  ]

  /** The substitutions, in order; `stringify` stands for `JSON.stringify` (line 309). */
  function Substitutions(form: FormData, stringify: seq<string> -> string): seq<string> {
    var bg := form.backgroundImage;
    [ form.title,
      BackgroundValue(bg), BackgroundImageValue(bg),
      BackgroundValue(bg), BackgroundImageValue(bg),
      form.title, form.subtitle, form.firstImage, form.yesButtonText,
      form.secondImage, form.yesClickText,
      stringify(ParsePhrases(form.noButtonPhrases)),
      AnimationName(form.buttonAnimation), AnimationName(form.buttonAnimation) ]
  }

  /** `generateHTML()` (src/App.tsx, lines 29-392). */
  function GenerateHtml(form: FormData, stringify: seq<string> -> string): string {
    TemplateLiteral(Quasis, Substitutions(form, stringify))
  }

  /** What the page's properties need of the cooked strings: how each one ends and how
      the next one starts around a substitution, and the fixed "No" button. */
  ghost predicate Shaped(q: seq<string>) {
    |q| == 15
    && EndsWith(q[0], TitleOpen) && TitleClose <= q[1]
    && EndsWith(q[1], BodyLayoutEnd + BackgroundProperty)
    && q[2] == BackgroundImageProperty && ";" <= q[3]
    && EndsWith(q[3], SuccessLayoutEnd + BackgroundProperty)
    && q[4] == BackgroundImageProperty && ";" <= q[5]
    && EndsWith(q[5], HeadingOpen) && HeadingClose <= q[6]
    && EndsWith(q[6], SubtitleOpen) && ParagraphClose <= q[7]
    && EndsWith(q[7], ImageSource) && ValentineImageClose <= q[8]
    && EndsWith(q[8], YesButtonOpen) && ButtonClose <= q[9]
    && Contains(q[9], NoButton)
    && EndsWith(q[9], ImageSource) && SuccessImageClose <= q[10]
    && EndsWith(q[10], SuccessTextOpen) && ParagraphClose <= q[11]
    && EndsWith(q[11], PhrasesDeclaration) && ";" <= q[12]
    && EndsWith(q[12], FirstClickTest) && ModeTestClose <= q[13]
    && EndsWith(q[13], ModeTest) && ModeTestClose <= q[14]
  }

  /** The cooked strings have that shape whatever the text between the substitutions'
      enclosing markup, the no handler's body between its two mode tests included. */
  lemma ShapedWhateverText(documentHead: string, bodyRuleHead: string, successRuleHead: string,
                           successRuleClose: string, styleClose: string, indent8: string,
                           buttonsOpen: string, indent12: string, successContainerOpen: string,
                           scriptOpen: string, stateDeclarations: string, noHandlerMiddle: string,
                           documentEnd: string)
    ensures Shaped([
      documentHead + TitleOpen,
      TitleClose + bodyRuleHead + (BodyLayoutEnd + BackgroundProperty),
      BackgroundImageProperty,
      ";" + successRuleHead + (SuccessLayoutEnd + BackgroundProperty),
      BackgroundImageProperty,
      ";" + successRuleClose + (styleClose + HeadingOpen),
      HeadingClose + indent8 + SubtitleOpen,
      ParagraphClose + indent8 + ImageSource,
      ValentineImageClose + buttonsOpen + YesButtonOpen,
      ButtonClose + indent12 + NoButton + (successContainerOpen + ImageSource),
      SuccessImageClose + indent8 + SuccessTextOpen,
      ParagraphClose + scriptOpen + PhrasesDeclaration,
      ";" + stateDeclarations + FirstClickTest,
      ModeTestClose + noHandlerMiddle + ModeTest,
      ModeTestClose + documentEnd])
  {
    var q := [
      documentHead + TitleOpen,
      TitleClose + bodyRuleHead + (BodyLayoutEnd + BackgroundProperty),
      BackgroundImageProperty,
      ";" + successRuleHead + (SuccessLayoutEnd + BackgroundProperty),
      BackgroundImageProperty,
      ";" + successRuleClose + (styleClose + HeadingOpen),
      HeadingClose + indent8 + SubtitleOpen,
      ParagraphClose + indent8 + ImageSource,
      ValentineImageClose + buttonsOpen + YesButtonOpen,
      ButtonClose + indent12 + NoButton + (successContainerOpen + ImageSource),
      SuccessImageClose + indent8 + SuccessTextOpen,
      ParagraphClose + scriptOpen + PhrasesDeclaration,
      ";" + stateDeclarations + FirstClickTest,
      ModeTestClose + noHandlerMiddle + ModeTest,
      ModeTestClose + documentEnd];
    assert EndsWith(q[0], TitleOpen) && TitleClose <= q[1]
           && EndsWith(q[1], BodyLayoutEnd + BackgroundProperty) && ";" <= q[3]
           && EndsWith(q[3], SuccessLayoutEnd + BackgroundProperty) && ";" <= q[5] by {
      EndsWithAppend(documentHead, TitleOpen);
      StartsWithAppend(TitleClose, bodyRuleHead, BodyLayoutEnd + BackgroundProperty);
      EndsWithAppend(TitleClose + bodyRuleHead, BodyLayoutEnd + BackgroundProperty);
      StartsWithAppend(";", successRuleHead, SuccessLayoutEnd + BackgroundProperty);
      EndsWithAppend(";" + successRuleHead, SuccessLayoutEnd + BackgroundProperty);
      StartsWithAppend(";", successRuleClose, styleClose + HeadingOpen);
    }
    assert EndsWith(q[5], HeadingOpen) && HeadingClose <= q[6] && EndsWith(q[6], SubtitleOpen)
           && ParagraphClose <= q[7] && EndsWith(q[7], ImageSource)
           && ValentineImageClose <= q[8] && EndsWith(q[8], YesButtonOpen) by {
      EndsWithNested(";" + successRuleClose, styleClose, HeadingOpen);
      StartsWithAppend(HeadingClose, indent8, SubtitleOpen);
      EndsWithAppend(HeadingClose + indent8, SubtitleOpen);
      StartsWithAppend(ParagraphClose, indent8, ImageSource);
      EndsWithAppend(ParagraphClose + indent8, ImageSource);
      StartsWithAppend(ValentineImageClose, buttonsOpen, YesButtonOpen);
      EndsWithAppend(ValentineImageClose + buttonsOpen, YesButtonOpen);
    }
    assert ButtonClose <= q[9] && Contains(q[9], NoButton) && EndsWith(q[9], ImageSource)
           && SuccessImageClose <= q[10] && EndsWith(q[10], SuccessTextOpen) by {
      StartsWithAppend4(ButtonClose, indent12, NoButton, successContainerOpen + ImageSource);
      ContainsInfix(ButtonClose + indent12, NoButton, successContainerOpen + ImageSource);
      EndsWithNested(ButtonClose + indent12 + NoButton, successContainerOpen, ImageSource);
      StartsWithAppend(SuccessImageClose, indent8, SuccessTextOpen);
      EndsWithAppend(SuccessImageClose + indent8, SuccessTextOpen);
    }
    assert ParagraphClose <= q[11] && EndsWith(q[11], PhrasesDeclaration) && ";" <= q[12]
           && EndsWith(q[12], FirstClickTest) && ModeTestClose <= q[13]
           && EndsWith(q[13], ModeTest) && ModeTestClose <= q[14] by {
      StartsWithAppend(ParagraphClose, scriptOpen, PhrasesDeclaration);
      EndsWithAppend(ParagraphClose + scriptOpen, PhrasesDeclaration);
      StartsWithAppend(";", stateDeclarations, FirstClickTest);
      EndsWithAppend(";" + stateDeclarations, FirstClickTest);
      StartsWithAppend(ModeTestClose, noHandlerMiddle, ModeTest);
      EndsWithAppend(ModeTestClose + noHandlerMiddle, ModeTest);
      StartsWithAppend(ModeTestClose, documentEnd, "");
    }
  }

  /** The template's cooked strings have the shape the properties below rely on. */
  lemma QuasisShaped()
    ensures Shaped(Quasis)
  {
    ShapedWhateverText(DocumentHead, StyleOpen + BodyRuleOpen, BodyRuleClose + SuccessRuleOpen,
                       SuccessRuleClose, StyleClose, Indent8,
                       ButtonsOpen, Indent12, SuccessContainerOpen, ScriptOpen, StateDeclarations,
                       "", DocumentEnd);
    assert ModeTestClose + "" == ModeTestClose;
  }

  /** Where each substitution lands in any template whose cooked strings have the shape
      of this one. */
  lemma ShapedPage(q: seq<string>, s: seq<string>)
    requires Shaped(q) && |s| == 14
    ensures Contains(TemplateLiteral(q, s), TitleOpen + s[0] + TitleClose)
    ensures Contains(TemplateLiteral(q, s), BodyLayoutEnd + BackgroundProperty + s[1] + q[2] + s[2] + ";")
    ensures Contains(TemplateLiteral(q, s), SuccessLayoutEnd + BackgroundProperty + s[3] + q[4] + s[4] + ";")
    ensures Contains(TemplateLiteral(q, s), HeadingOpen + s[5] + HeadingClose)
    ensures Contains(TemplateLiteral(q, s), SubtitleOpen + s[6] + ParagraphClose)
    ensures Contains(TemplateLiteral(q, s), ImageSource + s[7] + ValentineImageClose)
    ensures Contains(TemplateLiteral(q, s), YesButtonOpen + s[8] + ButtonClose)
    ensures Contains(TemplateLiteral(q, s), NoButton)
    ensures Contains(TemplateLiteral(q, s), ImageSource + s[9] + SuccessImageClose)
    ensures Contains(TemplateLiteral(q, s), SuccessTextOpen + s[10] + ParagraphClose)
    ensures Contains(TemplateLiteral(q, s), PhrasesDeclaration + s[11] + ";")
    ensures Contains(TemplateLiteral(q, s), FirstClickTest + s[12] + ModeTestClose)
    ensures Contains(TemplateLiteral(q, s), ModeTest + s[13] + ModeTestClose)
  {
    TemplateContainsHole(q, s, 0, TitleOpen, TitleClose);
    TemplateContainsHoles(q, s, 1, BodyLayoutEnd + BackgroundProperty, ";");
    TemplateContainsHoles(q, s, 3, SuccessLayoutEnd + BackgroundProperty, ";");
    TemplateContainsHole(q, s, 5, HeadingOpen, HeadingClose);
    TemplateContainsHole(q, s, 6, SubtitleOpen, ParagraphClose);
    TemplateContainsHole(q, s, 7, ImageSource, ValentineImageClose);
    TemplateContainsHole(q, s, 8, YesButtonOpen, ButtonClose);
    TemplateContainsFixed(q, s, 9, NoButton);
    TemplateContainsHole(q, s, 9, ImageSource, SuccessImageClose);
    TemplateContainsHole(q, s, 10, SuccessTextOpen, ParagraphClose);
    TemplateContainsHole(q, s, 11, PhrasesDeclaration, ";");
    TemplateContainsHole(q, s, 12, FirstClickTest, ModeTestClose);
    TemplateContainsHole(q, s, 13, ModeTest, ModeTestClose);
  }

  /** The title is the document's title and the main scene's heading, verbatim. */
  lemma TitleShownTwice(form: FormData, stringify: seq<string> -> string)
    ensures Contains(GenerateHtml(form, stringify), TitleOpen + form.title + TitleClose)
    ensures Contains(GenerateHtml(form, stringify), HeadingOpen + form.title + HeadingClose)
  {
    QuasisShaped();
    ShapedPage(Quasis, Substitutions(form, stringify));
  }

  /** The yes button's content is the yes-button text, verbatim; the no button is the
      fixed button labelled "No", whatever the phrases. */
  lemma ButtonsShown(form: FormData, stringify: seq<string> -> string)
    ensures Contains(GenerateHtml(form, stringify), YesButtonOpen + form.yesButtonText + ButtonClose)
    ensures Contains(GenerateHtml(form, stringify), NoButton)
  {
    QuasisShaped();
    ShapedPage(Quasis, Substitutions(form, stringify));
  }

  /** The subtitle, both image URLs and the success text are inserted verbatim in
      their elements. */
  lemma FieldsShown(form: FormData, stringify: seq<string> -> string)
    ensures Contains(GenerateHtml(form, stringify), SubtitleOpen + form.subtitle + ParagraphClose)
    ensures Contains(GenerateHtml(form, stringify), ImageSource + form.firstImage + ValentineImageClose)
    ensures Contains(GenerateHtml(form, stringify), ImageSource + form.secondImage + SuccessImageClose)
    ensures Contains(GenerateHtml(form, stringify), SuccessTextOpen + form.yesClickText + ParagraphClose)
  {
    QuasisShaped();
    ShapedPage(Quasis, Substitutions(form, stringify));
  }

  /** The script declares the encoding of the parsed phrase list (src/App.tsx, lines 30
      and 309). */
  lemma PhrasesEmbedded(form: FormData, stringify: seq<string> -> string)
    ensures Contains(GenerateHtml(form, stringify),
                     PhrasesDeclaration + stringify(ParsePhrases(form.noButtonPhrases)) + ";")
  {
    QuasisShaped();
    ShapedPage(Quasis, Substitutions(form, stringify));
  }

  /** With the phrases "Nope" and "Never" on two lines, the script declares the
      encoding of exactly that two-element list. */
  lemma ExamplePhrasesEmbedded(form: FormData, stringify: seq<string> -> string)
    requires form.noButtonPhrases == "Nope\nNever"
    ensures Contains(GenerateHtml(form, stringify), PhrasesDeclaration + stringify(["Nope", "Never"]) + ";")
  {
    ExamplePhrases();
    PhrasesEmbedded(form, stringify);
  }

  /** The animation mode is written into both tests of the no-click handler
      (src/App.tsx, lines 367 and 379), so it is fixed when the page is generated. */
  lemma AnimationEmbedded(form: FormData, stringify: seq<string> -> string)
    ensures Contains(GenerateHtml(form, stringify), FirstClickTest + AnimationName(form.buttonAnimation) + ModeTestClose)
    ensures Contains(GenerateHtml(form, stringify), ModeTest + AnimationName(form.buttonAnimation) + ModeTestClose)
  {
    QuasisShaped();
    ShapedPage(Quasis, Substitutions(form, stringify));
  }

  /** The body rule and the success scene's rule declare the same two background values
      right after their last layout declaration (src/App.tsx, lines 53-55 and 178-180). */
  lemma SceneBackgrounds(form: FormData, stringify: seq<string> -> string)
    ensures Contains(GenerateHtml(form, stringify),
                     BodyLayoutEnd + BackgroundProperty + BackgroundValue(form.backgroundImage)
                     + BackgroundImageProperty + BackgroundImageValue(form.backgroundImage) + ";")
    ensures Contains(GenerateHtml(form, stringify),
                     SuccessLayoutEnd + BackgroundProperty + BackgroundValue(form.backgroundImage)
                     + BackgroundImageProperty + BackgroundImageValue(form.backgroundImage) + ";")
  {
    QuasisShaped();
    ShapedPage(Quasis, Substitutions(form, stringify));
  }

  /** The body and the success scene always get the same background: the pink gradient
      and no image when the field is empty, and otherwise a transparent background with
      the field, verbatim, as the image URL. */
  lemma ScenesShareBackground(form: FormData, stringify: seq<string> -> string)
    ensures form.backgroundImage == "" ==>
      Contains(GenerateHtml(form, stringify), BodyLayoutEnd + BackgroundProperty + Gradient + BackgroundImageProperty + "none" + ";")
      && Contains(GenerateHtml(form, stringify), SuccessLayoutEnd + BackgroundProperty + Gradient + BackgroundImageProperty + "none" + ";")
    ensures form.backgroundImage != "" ==>
      Contains(GenerateHtml(form, stringify),
               BodyLayoutEnd + BackgroundProperty + "transparent" + BackgroundImageProperty + ("url('" + form.backgroundImage + "')") + ";")
      && Contains(GenerateHtml(form, stringify),
                  SuccessLayoutEnd + BackgroundProperty + "transparent" + BackgroundImageProperty + ("url('" + form.backgroundImage + "')") + ";")
  {
    SceneBackgrounds(form, stringify);
    BackgroundChoice(form.backgroundImage);
  }
}
