/**
 * Worked examples of `slugify`.  Each stage of the pipeline is computed in
 * its own lemma, on pieces of at most a few characters, and the pieces are
 * put together with the concatenation lemmas.
 */
module SlugExamples {
  import opened Text
  import opened EventModel

  // "AI & ML Tech Expo"

  lemma ExpoLower()
    ensures Lower("AI & ML Tech Expo") == "ai & ml tech expo"
  {
  }

  lemma ExpoTrim()
    ensures Trim("ai & ml tech expo") == "ai & ml tech expo"
  {
    TrimNoSpaceEnds("ai & ml tech expo");
  }

  lemma ExpoPieces()
    ensures "ai & ml tech expo" == "ai " + "&" + " ml" + " tech" + " expo"
  {
  }

  lemma ExpoStripSplit()
    ensures StripDisallowed("ai " + "&" + " ml" + " tech" + " expo")
         == StripDisallowed("ai ") + StripDisallowed("&") + StripDisallowed(" ml")
            + StripDisallowed(" tech") + StripDisallowed(" expo")
  {
    StripAppend("ai " + "&" + " ml" + " tech", " expo");
    StripAppend("ai " + "&" + " ml", " tech");
    StripAppend("ai " + "&", " ml");
    StripAppend("ai ", "&");
  }

  lemma ExpoStripAi()
    ensures StripDisallowed("ai ") == "ai "
  {
  }

  lemma ExpoStripAmpersand()
    ensures StripDisallowed("&") == []
  {
  }

  lemma ExpoStripMl()
    ensures StripDisallowed(" ml") == " ml"
  {
  }

  lemma ExpoStripTech()
    ensures StripDisallowed(" tech") == " tech"
  {
  }

  lemma ExpoStripExpo()
    ensures StripDisallowed(" expo") == " expo"
  {
  }

  lemma ExpoStripJoin()
    ensures "ai " + [] + " ml" + " tech" + " expo" == "ai  ml tech expo"
  {
  }

  /** The ampersand is removed; the spaces on either side of it stay. */
  lemma ExpoStrip()
    ensures StripDisallowed("ai & ml tech expo") == "ai  ml tech expo"
  {
    ExpoPieces();
    ExpoStripSplit();
    ExpoStripAi();
    ExpoStripAmpersand();
    ExpoStripMl();
    ExpoStripTech();
    ExpoStripExpo();
    ExpoStripJoin();
  }

  lemma ExpoDashPieces()
    ensures "ai  ml tech expo" == "ai  ml" + " tech" + " expo"
  {
  }

  lemma ExpoDashSplit()
    ensures DashWhitespace("ai  ml" + " tech" + " expo")
         == DashWhitespace("ai  ml") + DashWhitespace(" tech") + DashWhitespace(" expo")
  {
    DashAppend("ai  ml" + " tech", " expo");
    DashAppend("ai  ml", " tech");
  }

  lemma ExpoDashAiMl()
    ensures DashWhitespace("ai  ml") == "ai-ml"
  {
  }

  lemma ExpoDashTech()
    ensures DashWhitespace(" tech") == "-tech"
  {
  }

  lemma ExpoDashExpo()
    ensures DashWhitespace(" expo") == "-expo"
  {
  }

  lemma ExpoDashJoin()
    ensures "ai-ml" + "-tech" + "-expo" == "ai-ml-tech-expo"
  {
  }

  /** The double space becomes one hyphen, and so does each single space. */
  lemma ExpoDash()
    ensures DashWhitespace("ai  ml tech expo") == "ai-ml-tech-expo"
  {
    ExpoDashPieces();
    ExpoDashSplit();
    ExpoDashAiMl();
    ExpoDashTech();
    ExpoDashExpo();
    ExpoDashJoin();
  }

  /** The ampersand is stripped and the double space it leaves becomes a single hyphen. */
  lemma SlugifyTechExpo()
    ensures Slugify("AI & ML Tech Expo") == "ai-ml-tech-expo"
  {
    ExpoLower();
    ExpoTrim();
    ExpoStrip();
    ExpoDash();
  }

  // "Hello !"

  lemma HelloLowerTrim()
    ensures Trim(Lower("Hello !")) == "hello !"
  {
    assert Lower("Hello !") == "hello !";
    TrimNoSpaceEnds("hello !");
  }

  lemma HelloPieces()
    ensures "hello !" == "hello" + " " + "!"
  {
  }

  lemma HelloStripWord()
    ensures StripDisallowed("hello") == "hello"
  {
  }

  lemma HelloStripBang()
    ensures StripDisallowed(" ") == " " && StripDisallowed("!") == []
  {
  }

  lemma HelloStrip()
    ensures StripDisallowed("hello !") == "hello" + " "
  {
    HelloPieces();
    StripAppend("hello" + " ", "!");
    StripAppend("hello", " ");
    HelloStripWord();
    HelloStripBang();
  }

  lemma HelloDash()
    ensures DashWhitespace("hello" + " ") == "hello-"
  {
    DashAppend("hello", " ");
    assert DashWhitespace("hello") == "hello";
    assert DashWhitespace(" ") == "-";
  }

  /** Trimming happens before stripping, so the space left in front of a stripped `!` becomes a trailing hyphen. */
  lemma SlugifyTrailingPunctuation()
    ensures Slugify("Hello !") == "hello-"
  {
    HelloLowerTrim();
    HelloStrip();
    HelloDash();
  }

  // "a - b"

  lemma SpacedHyphenStages()
    ensures Trim(Lower("a - b")) == "a - b"
    ensures StripDisallowed("a - b") == "a - b"
  {
    assert Lower("a - b") == "a - b";
    TrimNoSpaceEnds("a - b");
  }

  lemma SpacedHyphenDash()
    ensures DashWhitespace("a - b") == "a---b"
  {
  }

  /** Hyphens are kept and never merged with the hyphens the spaces around them become. */
  lemma SlugifySpacedHyphen()
    ensures Slugify("a - b") == "a---b"
  {
    SpacedHyphenStages();
    SpacedHyphenDash();
  }
}
