/** PWG self-describing media names, class_name_dimensions (model.rs; section 5 of PWG 5101.1). */
module MediaSizes {
  import opened Wrappers
  import opened Texts

  datatype MediaSize = MediaSize(keyword: string, mediaClass: string, name: string, dimensions: string,
                                 borderless: bool)

  predicate Contains(s: string, part: string) {
    part <= s || (s != "" && Contains(s[1..], part))
  }

  function Parse(keyword: string): Option<MediaSize> {
    match RSplitOnce(keyword, '_')
    case None => None
    case Some((head, dimensions)) =>
      match SplitOnce(head, '_')
      case None => None
      case Some((mediaClass, name)) =>
        if mediaClass == "" || name == "" || dimensions == "" then None
        else Some(MediaSize(keyword, mediaClass, name, dimensions, Contains(name, ".borderless")))
  }

  function Join(mediaClass: string, name: string, dimensions: string): string {
    mediaClass + ['_'] + name + ['_'] + dimensions
  }

  /** The shape of a PWG name: three parts, none empty; only the middle one may hold an underscore. */
  predicate WellShaped(mediaClass: string, name: string, dimensions: string) {
    mediaClass != "" && name != "" && dimensions != "" && '_' !in mediaClass && '_' !in dimensions
  }

  predicate Splits(keyword: string, mediaClass: string, name: string, dimensions: string) {
    WellShaped(mediaClass, name, dimensions) && keyword == Join(mediaClass, name, dimensions)
  }

  /** Every well-shaped triple parses to itself, so the split of a keyword is unique. */
  lemma ParsesJoined(mediaClass: string, name: string, dimensions: string)
    requires WellShaped(mediaClass, name, dimensions)
    ensures var keyword := Join(mediaClass, name, dimensions);
            Parse(keyword) == Some(MediaSize(keyword, mediaClass, name, dimensions, Contains(name, ".borderless")))
  {
    RSplitJoined(mediaClass + ['_'] + name, '_', dimensions);
    SplitJoined(mediaClass, '_', name);
  }

  lemma {:induction false} ContainsExactly(s: string, part: string)
    ensures Contains(s, part) <==> exists before, after :: s == before + part + after
  {
    if part <= s {
      assert s == "" + part + s[|part|..];
    } else if s != "" {
      ContainsExactly(s[1..], part);
      if before, after :| s[1..] == before + part + after {
        assert s == ([s[0]] + before) + part + after;
      }
      if before, after :| s == before + part + after {
        assert before == "" ==> part <= before + part + after;
        assert s[1..] == before[1..] + part + after;
      }
    }
  }

  /** A keyword parses exactly when it is a well-shaped triple joined, and then it parses to it. */
  lemma ParsesExactly(keyword: string)
    ensures Parse(keyword).Some? <==> exists c, n, d :: Splits(keyword, c, n, d)
    ensures Parse(keyword).Some? ==>
              var m := Parse(keyword).value;
              && m.keyword == keyword && Splits(keyword, m.mediaClass, m.name, m.dimensions)
              && (m.borderless <==> exists before, after :: m.name == before + ".borderless" + after)
  {
    RSplitIs(keyword, '_');
    if RSplitOnce(keyword, '_').Some? {
      SplitIs(RSplitOnce(keyword, '_').value.0, '_');
    }
    if Parse(keyword).Some? {
      var m := Parse(keyword).value;
      ContainsExactly(m.name, ".borderless");
      assert Splits(keyword, m.mediaClass, m.name, m.dimensions);
    }
    forall c, n, d | Splits(keyword, c, n, d) ensures Parse(keyword).Some? {
      ParsesJoined(c, n, d);
    }
  }
}
