/** How the backend picks its database: the `DATABASE_URL` environment
    variable when it is set and non-empty, with the `postgres://` scheme that
    hosting providers hand out rewritten to the `postgresql://` scheme
    SQLAlchemy expects; otherwise a SQLite file next to the code. */
module DbConfig {
  import opened Wrappers
  import opened Strings

  const OldScheme := "postgres://"
  const NewScheme := "postgresql://"

  /** `database.py`'s fix-up: `url.replace("postgres://", "postgresql://", 1)`,
      applied when the URL starts with the old scheme. */
  function RewritePostgres(url: string): string {
    if StartsWith(url, OldScheme) then ReplaceFirst(url, OldScheme, NewScheme) else url
  }

  /** Since the first occurrence of the old scheme is then at the start, the
      replacement swaps only the scheme; any other URL is kept. */
  lemma RewriteIsSchemeSwap(url: string)
    ensures StartsWith(url, OldScheme) ==> RewritePostgres(url) == NewScheme + url[|OldScheme|..]
    ensures !StartsWith(url, OldScheme) ==> RewritePostgres(url) == url
  {
    if StartsWith(url, OldScheme) {
      ReplaceFirstAt(url, OldScheme, NewScheme, 0);
      assert url[..0] == [];
    }
  }

  /** The new scheme does not start with the old one (`q` against `:`). */
  lemma NewSchemeIsNotOld(rest: string)
    ensures !StartsWith(NewScheme + rest, OldScheme)
  {
    assert (NewScheme + rest)[8] == 'q';
  }

  /** After the rewrite no URL uses the old scheme, and rewriting again
      changes nothing. */
  lemma RewriteSettles(url: string)
    ensures !StartsWith(RewritePostgres(url), OldScheme)
    ensures RewritePostgres(RewritePostgres(url)) == RewritePostgres(url)
  {
    RewriteIsSchemeSwap(url);
    if StartsWith(url, OldScheme) {
      NewSchemeIsNotOld(url[|OldScheme|..]);
      RewriteIsSchemeSwap(RewritePostgres(url));
    }
  }

  /** Stripping the new scheme's prefix gives back the rest of the original
      URL: user, password, host and database name are kept. */
  lemma RewriteKeepsRest(url: string)
    requires StartsWith(url, OldScheme)
    ensures StartsWith(RewritePostgres(url), NewScheme)
    ensures RewritePostgres(url)[|NewScheme|..] == url[|OldScheme|..]
  {
    RewriteIsSchemeSwap(url);
    var r := RewritePostgres(url);
    assert r[..|NewScheme|] == NewScheme;
  }

  /** `os.path.join(dir, name)` for a relative `name` on POSIX. */
  function PathJoin(dir: string, name: string): string {
    if dir == [] || dir[|dir| - 1] == '/' then dir + name else dir + "/" + name
  }

  /** What `create_engine` receives. */
  datatype Engine = Engine(url: string, checkSameThread: Option<bool>)

  /** `database.py`: an unset or empty variable selects the SQLite file
      `phdplan.db` in the backend's directory, with SQLite's same-thread
      check turned off; any other value is used with only the scheme fixed. */
  function SelectEngine(env: Option<string>, baseDir: string): Engine {
    if env.None? || env.value == "" then
      Engine("sqlite:///" + PathJoin(baseDir, "phdplan.db"), Some(false))
    else
      Engine(RewritePostgres(env.value), None)
  }

  lemma SelectEngineCases(env: Option<string>, baseDir: string)
    ensures var e := SelectEngine(env, baseDir);
      (e.checkSameThread.Some? <==> env.None? || env.value == "")
      && (e.checkSameThread.Some? ==> StartsWith(e.url, "sqlite:///") && e.checkSameThread == Some(false))
      && (e.checkSameThread.None? ==>
            !StartsWith(e.url, OldScheme) && (StartsWith(env.value, OldScheme) || e.url == env.value))
  {
    var e := SelectEngine(env, baseDir);
    if e.checkSameThread.Some? {
      assert e.url[..10] == "sqlite:///";
    } else {
      RewriteSettles(env.value);
    }
  }

  /** The SQLite file is `phdplan.db` inside the backend directory. */
  lemma SqliteFileInBaseDir(baseDir: string)
    requires baseDir != [] && baseDir[|baseDir| - 1] != '/'
    ensures SelectEngine(None, baseDir).url == "sqlite:///" + baseDir + "/phdplan.db"
  {
  }
}
