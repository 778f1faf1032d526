/** Concrete links and parameters, and what is proved of the model for them. */
module IntentExamples {
  import opened Wrappers
  import opened Strings
  import opened UrlNormalizer
  import opened UrlParser
  import opened IntentExtractor
  import opened ImageValidation
  import opened ComposeDispatch

  /** The value of a short digit string, unfolded one digit at a time. */
  lemma DigitsValues()
    ensures DigitsValue("10") == 10 && DigitsValue("100") == 100
    ensures DigitsValue("320") == 320 && DigitsValue("240") == 240
  {
    assert "10"[..1] == "1" && "1"[..0] == "";
    assert "100"[..2] == "10";
    assert "320"[..2] == "32" && "32"[..1] == "3" && "3"[..0] == "";
    assert "240"[..2] == "24" && "24"[..1] == "2" && "2"[..0] == "";
  }

  /**
   * A whole entry `path|width|height` of a path token and two digit strings
   * matches the pattern and maps to the path and the values of the digits.
   */
  lemma DigitFieldsEntry(path: string, width: string, height: string)
    requires IsPathToken(path) && IsDigits(width) && IsDigits(height)
    ensures MatchesImagePattern(path + "|" + width + "|" + height)
    ensures ToImageRef(path + "|" + width + "|" + height)
         == ImageRef(path, DigitsValue(width) as real, DigitsValue(height) as real)
  {
    var entry := path + "|" + width + "|" + height;
    PathTokenHasNoBar(path);
    assert '|' !in width && '|' !in height by {
      forall k | 0 <= k < |width| ensures width[k] != '|' { assert IsDigit(width[k]); }
      forall k | 0 <= k < |height| ensures height[k] != '|' { assert IsDigit(height[k]); }
    }
    assert '.' !in width && '.' !in height by {
      forall k | 0 <= k < |width| ensures width[k] != '.' { assert IsDigit(width[k]); }
      forall k | 0 <= k < |height| ensures height[k] != '.' { assert IsDigit(height[k]); }
    }
    SplitThreeFields(path, width, height);
    FieldsMatchPattern(entry);
  }

  /** A character that is neither in the path, nor a bar, nor a digit is not in `path|width|height`. */
  lemma EntryLacks(path: string, width: string, height: string, c: char)
    requires IsDigits(width) && IsDigits(height) && c !in path && c != '|' && !IsDigit(c)
    ensures c !in path + "|" + width + "|" + height
  {
    forall k | 0 <= k < |width| ensures width[k] != c { assert IsDigit(width[k]); }
    forall k | 0 <= k < |height| ensures height[k] != c { assert IsDigit(height[k]); }
  }

  /** A whole entry `path|width|height` of a colon-free path token and two digit strings is kept. */
  lemma ColonFreeEntry(path: string, width: string, height: string)
    requires IsPathToken(path) && ':' !in path && IsDigits(width) && IsDigits(height)
    ensures KeepEntry(path + "|" + width + "|" + height)
    ensures ToImageRef(path + "|" + width + "|" + height)
         == ImageRef(path, DigitsValue(width) as real, DigitsValue(height) as real)
  {
    DigitFieldsEntry(path, width, height);
    EntryLacks(path, width, height, ':');
    ColonFreeHasNoLocator(path + "|" + width + "|" + height);
  }

  /** Path tokens concatenate. */
  lemma PathTokenAppend(a: string, b: string)
    requires IsPathToken(a) && IsPathToken(b)
    ensures IsPathToken(a + b)
  {
    forall k | 0 <= k < |a + b| ensures IsPathChar((a + b)[k]) {
      if k < |a| { assert (a + b)[k] == a[k]; } else { assert (a + b)[k] == b[k - |a|]; }
    }
  }

  /** `local/cache/abc.jpg|320|240` is made of a colon-free path token and two digit strings. */
  lemma LocalEntryFields()
    ensures IsPathToken("local/cache/abc.jpg") && ':' !in "local/cache/abc.jpg"
    ensures IsDigits("320") && IsDigits("240")
  {
  }

  /** `local/cache/abc.jpg|320|240` is kept as the image at that path, 320 by 240. */
  lemma LocalEntryKept()
    ensures KeepEntry("local/cache/abc.jpg" + "|" + "320" + "|" + "240")
    ensures ToImageRef("local/cache/abc.jpg" + "|" + "320" + "|" + "240")
         == ImageRef("local/cache/abc.jpg", 320.0, 240.0)
  {
    LocalEntryFields();
    ColonFreeEntry("local/cache/abc.jpg", "320", "240");
    DigitsValues();
  }

  /** The parameter `local/cache/abc.jpg|320|240` yields the one image at that path, 320 by 240. */
  lemma LocalImageAccepted()
    ensures ImagesFromParam(Some("local/cache/abc.jpg" + "|" + "320" + "|" + "240"))
         == Some([ImageRef("local/cache/abc.jpg", 320.0, 240.0)])
  {
    LocalEntryKept();
    assert ',' !in "local/cache/abc.jpg" + "|" + "320" + "|" + "240";
    SingleEntryKeptIff("local/cache/abc.jpg" + "|" + "320" + "|" + "240");
  }

  /** `https://evil.example/x.png` is made of path characters only. */
  lemma RemotePathIsPathToken()
    ensures IsPathToken("https://" + "evil.example/x.png")
  {
    assert IsPathToken("https://") && IsPathToken("evil.example/x.png");
    PathTokenAppend("https://", "evil.example/x.png");
  }

  /** `https://evil.example/x.png|100|100` matches the image pattern and holds `https://`. */
  lemma RemoteEntryShape()
    ensures ',' !in "https://" + "evil.example/x.png" + "|" + "100" + "|" + "100"
    ensures MatchesImagePattern("https://" + "evil.example/x.png" + "|" + "100" + "|" + "100")
    ensures HasRemoteLocator("https://" + "evil.example/x.png" + "|" + "100" + "|" + "100")
  {
    var path := "https://" + "evil.example/x.png";
    RemotePathIsPathToken();
    var entry := path + "|" + "100" + "|" + "100";
    assert IsDigits("100");
    PathTokenHasNoBar(path);
    assert '|' !in "100";
    SplitThreeFields(path, "100", "100");
    FieldsMatchPattern(entry);
    assert entry[..8] == "https://";
    assert OccursAt(entry, "https://", 0);
    assert ',' !in entry by {
      assert forall k | 0 <= k < |path| :: IsPathChar(path[k]);
    }
  }

  /**
   * `https://evil.example/x.png|100|100` has the shape of an image entry
   * (`:` and `/` are path characters), yet the `http(s)://` filter drops it.
   */
  lemma RemoteImageRejected()
    ensures MatchesImagePattern("https://" + "evil.example/x.png" + "|" + "100" + "|" + "100")
    ensures ImagesFromParam(Some("https://" + "evil.example/x.png" + "|" + "100" + "|" + "100")) == Some([])
  {
    RemoteEntryShape();
    SingleEntryKeptIff("https://" + "evil.example/x.png" + "|" + "100" + "|" + "100");
  }

  /**
   * An entry of a path token without a lower-case `h` and two digit strings
   * cannot hold `https://` or `http://`, so the parameter made of it alone
   * yields its image.
   */
  lemma LowerHFreeEntryKept(path: string, width: string, height: string)
    requires IsPathToken(path) && 'h' !in path && IsDigits(width) && IsDigits(height)
    ensures KeepEntry(path + "|" + width + "|" + height)
    ensures ImagesFromParam(Some(path + "|" + width + "|" + height))
         == Some([ImageRef(path, DigitsValue(width) as real, DigitsValue(height) as real)])
  {
    var entry := path + "|" + width + "|" + height;
    DigitFieldsEntry(path, width, height);
    assert ',' !in path by {
      forall k | 0 <= k < |path| ensures path[k] != ',' { assert IsPathChar(path[k]); }
    }
    EntryLacks(path, width, height, 'h');
    EntryLacks(path, width, height, ',');
    MissingCharNotContained(entry, "https://", 0);
    MissingCharNotContained(entry, "http://", 0);
    SingleEntryKeptIff(entry);
  }

  /** `HTTPS://evil.example/x.png` is made of path characters only, none of them `h` or `,`. */
  lemma UpperCasePath()
    ensures IsPathToken("HTTPS://" + "evil.example/x.png")
    ensures 'h' !in "HTTPS://" + "evil.example/x.png" && ',' !in "HTTPS://" + "evil.example/x.png"
  {
    assert IsPathToken("HTTPS://") && IsPathToken("evil.example/x.png");
    PathTokenAppend("HTTPS://", "evil.example/x.png");
  }

  /**
   * `HTTPS://evil.example/x.png|10|10` has the image shape and, since the
   * `http(s)://` test is case-sensitive, holds neither `https://` nor
   * `http://`: it is kept, upper-case scheme and all.
   */
  lemma UpperCaseSchemeKept()
    ensures KeepEntry("HTTPS://" + "evil.example/x.png" + "|" + "10" + "|" + "10")
    ensures ImagesFromParam(Some("HTTPS://" + "evil.example/x.png" + "|" + "10" + "|" + "10"))
         == Some([ImageRef("HTTPS://" + "evil.example/x.png", 10.0, 10.0)])
  {
    UpperCasePath();
    DigitsValues();
    LowerHFreeEntryKept("HTTPS://" + "evil.example/x.png", "10", "10");
  }

  /** `Number("1.5")` is one and a half. */
  lemma DecimalOneAndAHalf()
    ensures DecimalValue("1" + "." + "5") == 1.5
  {
    assert IsDigits("1") && IsDigits("5");
    DecimalValueOfFraction("1", "5");
    assert "1"[..0] == "" && "5"[..0] == "";
  }

  /** `a/b.png|10|10` is made of a colon-free path token and two digit strings. */
  lemma GoodEntryFields()
    ensures IsPathToken("a/b.png") && ':' !in "a/b.png" && IsDigits("10")
    ensures "a/b.png|10|10" == "a/b.png" + "|" + "10" + "|" + "10"
  {
  }

  /** `a/b.png|10|10` holds none of `,`, `&` and `#`. */
  lemma GoodEntryPlain()
    ensures ',' !in "a/b.png|10|10" && '&' !in "a/b.png|10|10" && '#' !in "a/b.png|10|10"
  {
  }

  /** `a/b.png|10|10` is kept as the image `a/b.png` of 10 by 10. */
  lemma GoodEntry()
    ensures KeepEntry("a/b.png|10|10")
    ensures ToImageRef("a/b.png|10|10") == ImageRef("a/b.png", 10.0, 10.0)
  {
    GoodEntryFields();
    ColonFreeEntry("a/b.png", "10", "10");
    DigitsValues();
  }

  /** `not-an-image` has no `|`, so it does not match. */
  lemma BadEntry()
    ensures ',' !in "not-an-image"
    ensures !KeepEntry("not-an-image")
  {
    assert '|' !in "not-an-image";
  }

  /** In `a/b.png|10|10,not-an-image` the malformed entry alone is dropped. */
  lemma MixedListKeepsValidEntry()
    ensures ImagesFromParam(Some("a/b.png|10|10" + "," + "not-an-image"))
         == Some([ImageRef("a/b.png", 10.0, 10.0)])
  {
    GoodEntry();
    GoodEntryPlain();
    BadEntry();
    ImagesOfTwoEntries("a/b.png|10|10", "not-an-image");
    ValidImagesOne("a/b.png|10|10");
    ValidImagesOne("not-an-image");
  }

  /** The one image entry of the compose link. */
  lemma ComposeLinkImages()
    ensures ImagesFromParam(Some("a/b.png|10|10")) == Some([ImageRef("a/b.png", 10.0, 10.0)])
  {
    GoodEntry();
    GoodEntryPlain();
    SingleEntryKeptIff("a/b.png|10|10");
  }

  /**
   * End to end: a signed-in user opening
   * `bluesky://intent/compose?text=hello&imageUris=a/b.png|10|10` gets
   * close-all, then one opening 500 ms later with text `hello` and, on a
   * native platform, the one image `a/b.png` of 10 by 10.
   */
  lemma ComposeLinkEndToEnd(isNative: bool)
    ensures LinkEffects(true, isNative, TwoSlashPrefix + "intent/compose" + "?" + ("text" + "=" + "hello" + "&" + "imageUris" + "=" + "a/b.png|10|10"))
         == [ CloseAllActiveElements,
              ScheduleOpenComposer(
                ComposerPayload(Some("hello"), if isNative then Some([ImageRef("a/b.png", 10.0, 10.0)]) else None),
                500) ]
  {
    GoodEntryPlain();
    ComposeLinkReachesCallback(true, isNative, "hello", "a/b.png|10|10");
    ComposeLinkImages();
  }

  /** The same link without a session does nothing. */
  lemma ComposeLinkWithoutSession(isNative: bool)
    ensures LinkEffects(false, isNative, TwoSlashPrefix + "intent/compose" + "?" + ("text" + "=" + "hello" + "&" + "imageUris" + "=" + "a/b.png|10|10")) == []
  {
    GoodEntryPlain();
    ComposeLinkReachesCallback(false, isNative, "hello", "a/b.png|10|10");
  }

  /** `bluesky:////intent/compose` has an empty segment 1, so it has no effect. */
  lemma FourSlashComposeLinkIgnored(hasSession: bool, isNative: bool)
    ensures LinkEffects(hasSession, isNative, "bluesky:////intent/compose") == []
  {
    assert "bluesky:////intent/compose" == ThreeSlashPrefix + "/" + "intent/compose";
    FourSlashLinkWithoutQueryHasNoEffect(hasSession, isNative, "intent/compose");
  }
}
