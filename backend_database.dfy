/**
 * The database URL normalisation of backend/database.py: a `postgres://` or driver-less
 * `postgresql://` URL is rewritten to name the psycopg (version 3) driver; any other URL is
 * used as given.
 */
module BackendDatabase {
  import opened Strings

  const DefaultUrl := "sqlite:///./dev.db"
  const LegacyScheme := "postgres://"
  const PlainScheme := "postgresql://"
  const PsycopgScheme := "postgresql+psycopg://"

  /** The rewrite applied to `DATABASE_URL` before the engine is created. */
  function NormalizeUrl(url: string): (r: string)
    ensures r != url ==> LegacyScheme <= url || PlainScheme <= url
    ensures r == url || PsycopgScheme <= r
  {
    if LegacyScheme <= url then ReplaceFirst(url, LegacyScheme, PsycopgScheme)
    else if PlainScheme <= url && '+' !in BeforeFirst(url, "://")
    then ReplaceFirst(url, PlainScheme, PsycopgScheme)
    else url
  }

  /** The two prefixes never hold together: the ninth character is `:` in one and `q` in the
      other. */
  lemma PrefixesExclusive(url: string)
    ensures !(LegacyScheme <= url && PlainScheme <= url)
  {
    if LegacyScheme <= url {
      assert url[8] == ':';
    }
  }

  /** For a `postgresql://` URL the scheme before the first `://` is `postgresql`. */
  lemma PlainSchemeText(url: string)
    requires PlainScheme <= url
    ensures BeforeFirst(url, "://") == "postgresql"
  {
    forall i | 0 <= i < 10 ensures !("://" <= url[i..]) {
      assert url[i] == PlainScheme[i];
    }
    assert "postgresql" + "://" == PlainScheme;
    BeforeFirstOfPrefix(url, "postgresql", "://");
  }

  /** A `postgres://` URL keeps its remainder behind the psycopg scheme. */
  lemma LegacySchemeRewritten(url: string)
    requires LegacyScheme <= url
    ensures NormalizeUrl(url) == PsycopgScheme + url[|LegacyScheme|..]
  {
    ReplaceFirstOfPrefix(url, LegacyScheme, PsycopgScheme);
  }

  /** A `postgresql://` URL keeps its remainder behind the psycopg scheme; the test for a `+`
      in the scheme always passes here. */
  lemma PlainSchemeRewritten(url: string)
    requires PlainScheme <= url
    ensures NormalizeUrl(url) == PsycopgScheme + url[|PlainScheme|..]
  {
    PrefixesExclusive(url);
    PlainSchemeText(url);
    assert '+' !in BeforeFirst(url, "://");
    ReplaceFirstOfPrefix(url, PlainScheme, PsycopgScheme);
    assert NormalizeUrl(url) == ReplaceFirst(url, PlainScheme, PsycopgScheme);
  }

  /** Any URL with neither prefix is left as it is. */
  lemma OtherUrlsUnchanged(url: string)
    requires !(LegacyScheme <= url) && !(PlainScheme <= url)
    ensures NormalizeUrl(url) == url
  {
  }

  /** The default SQLite URL and a URL naming another driver are not rewritten. */
  lemma UnchangedExamples(rest: string)
    ensures NormalizeUrl(DefaultUrl) == DefaultUrl
    ensures NormalizeUrl("postgresql+psycopg2://" + rest) == "postgresql+psycopg2://" + rest
  {
    var u := "postgresql+psycopg2://" + rest;
    assert u[8] == 'q' && u[10] == '+';
    assert !(LegacyScheme <= u) by { assert LegacyScheme[8] == ':'; }
    assert !(PlainScheme <= u) by { assert PlainScheme[10] == ':'; }
    OtherUrlsUnchanged(u);
    assert !(LegacyScheme <= DefaultUrl) && !(PlainScheme <= DefaultUrl) by {
      assert DefaultUrl[0] == 's';
    }
  }

  /** The rewritten scheme matches neither prefix. */
  lemma PsycopgUrlNotRewritten(url: string)
    requires PsycopgScheme <= url
    ensures NormalizeUrl(url) == url
  {
    assert url[8] == PsycopgScheme[8] == 'q';
    assert url[10] == PsycopgScheme[10] == '+';
    assert !(LegacyScheme <= url) by { assert LegacyScheme[8] == ':'; }
    assert !(PlainScheme <= url) by { assert PlainScheme[10] == ':'; }
    OtherUrlsUnchanged(url);
  }

  /** Normalising twice is normalising once. */
  lemma NormalizeIdempotent(url: string)
    ensures NormalizeUrl(NormalizeUrl(url)) == NormalizeUrl(url)
  {
    if LegacyScheme <= url {
      LegacySchemeRewritten(url);
      PsycopgUrlNotRewritten(NormalizeUrl(url));
    } else if PlainScheme <= url {
      PlainSchemeRewritten(url);
      PsycopgUrlNotRewritten(NormalizeUrl(url));
    }
  }
}
