/**
 * Project settings (app/core/config.py): the PostgreSQL connection
 * parameters, the token signing secret and algorithm, and the token
 * lifetime. Loading them from the environment is not modelled; a `Settings`
 * value is what loading produced.
 */
module Config {
  import opened Wrappers
  import opened Text

  const DefaultAccessTokenExpireMinutes: int := 30

  datatype Settings = Settings(
    postgresHost: string,
    postgresPort: int,
    postgresDb: string,
    postgresUser: string,
    postgresPassword: string,
    secretKey: string,
    algorithm: string,
    accessTokenExpireMinutes: int := DefaultAccessTokenExpireMinutes)

  const SyncScheme := "postgresql://"
  const AsyncScheme := "postgresql+asyncpg://"

  /** The five connection parameters a URL carries. */
  datatype DbParams = DbParams(user: string, password: string, host: string, port: int, db: string)

  function ParamsOf(s: Settings): DbParams
  {
    DbParams(s.postgresUser, s.postgresPassword, s.postgresHost, s.postgresPort, s.postgresDb)
  }

  /**
   * `<user>:<password>@<host>:<port>/<db>`, the part after the scheme that
   * both URL builders share (the port written as Python's `str` writes it).
   */
  function UrlTail(s: Settings): (tail: string)
    ensures |tail| > |s.postgresUser| + |s.postgresDb|
    ensures tail[..|s.postgresUser| + 1] == s.postgresUser + [':']
    ensures tail[|tail| - |s.postgresDb| - 1..] == ['/'] + s.postgresDb
  {
    s.postgresUser + [':'] + (s.postgresPassword + ['@'] + (s.postgresHost + [':']
      + (IntToDecimal(s.postgresPort) + ['/'] + s.postgresDb)))
  }

  function DbUrl(scheme: string, s: Settings): string
  {
    scheme + UrlTail(s)
  }

  /** `Settings.get_db_url`, built from the receiver's own fields. */
  function GetDbUrl(self: Settings): (url: string)
    ensures SyncScheme <= url
    ensures url[|SyncScheme|..] == UrlTail(self)
  {
    DbUrl(SyncScheme, self)
  }

  /**
   * `Settings.get_db_url_async`. The source reads the module-level
   * `settings` object, not the receiver, so `self` does not reach the result.
   */
  function GetDbUrlAsync(self: Settings, global: Settings): (url: string)
    ensures AsyncScheme <= url
    ensures url == AsyncScheme + GetDbUrl(global)[|SyncScheme|..]
  {
    DbUrl(AsyncScheme, global)
  }

  /** `Settings.get_auth_data`, again read from the module-level object. */
  function GetAuthData(self: Settings, global: Settings): (m: map<string, string>)
    ensures m.Keys == {"secret_key", "algorithm"}
    ensures m["secret_key"] == global.secretKey && m["algorithm"] == global.algorithm
  {
    map["secret_key" := global.secretKey, "algorithm" := global.algorithm]
  }

  /**
   * Reads the connection parameters back out of a URL with the given scheme:
   * the user ends at the first ':', the password at the next '@', the host
   * at the next ':', the port at the next '/', and the database is the rest.
   */
  function ParseDbUrl(scheme: string, url: string): Option<DbParams>
  {
    if !(scheme <= url) then None
    else
      var (user, afterUser) :- SplitAtFirst(url[|scheme|..], ':');
      var (password, afterPassword) :- SplitAtFirst(afterUser, '@');
      var (host, afterHost) :- SplitAtFirst(afterPassword, ':');
      var (portText, db) :- SplitAtFirst(afterHost, '/');
      var port :- ParseInt(portText);
      Some(DbParams(user, password, host, port, db))
  }

  /** The parameters are recoverable whenever the separators do not occur inside them. */
  predicate Unambiguous(p: DbParams)
  {
    ':' !in p.user && '@' !in p.password && ':' !in p.host
  }

  lemma {:induction false} DbUrlRoundTrip(scheme: string, s: Settings)
    requires Unambiguous(ParamsOf(s))
    ensures ParseDbUrl(scheme, DbUrl(scheme, s)) == Some(ParamsOf(s))
  {
    var portText := IntToDecimal(s.postgresPort);
    var afterHost := portText + ['/'] + s.postgresDb;
    var afterPassword := s.postgresHost + [':'] + afterHost;
    var afterUser := s.postgresPassword + ['@'] + afterPassword;
    assert DbUrl(scheme, s)[|scheme|..] == UrlTail(s);
    SplitAtFirstOfJoin(s.postgresUser, ':', afterUser);
    SplitAtFirstOfJoin(s.postgresPassword, '@', afterPassword);
    SplitAtFirstOfJoin(s.postgresHost, ':', afterHost);
    SplitAtFirstOfJoin(portText, '/', s.postgresDb);
    IntDecimalRoundTrip(s.postgresPort);
  }

  /** Both builders produce URLs from which the settings' connection parameters are recovered. */
  lemma GetDbUrlRoundTrip(self: Settings, global: Settings)
    requires Unambiguous(ParamsOf(self)) && Unambiguous(ParamsOf(global))
    ensures ParseDbUrl(SyncScheme, GetDbUrl(self)) == Some(ParamsOf(self))
    ensures ParseDbUrl(AsyncScheme, GetDbUrlAsync(self, global)) == Some(ParamsOf(global))
  {
    DbUrlRoundTrip(SyncScheme, self);
    DbUrlRoundTrip(AsyncScheme, global);
  }

  /** When `self` is the module-level object, the two URLs differ only in the scheme. */
  lemma UrlsDifferOnlyInScheme(s: Settings)
    ensures GetDbUrl(s) == SyncScheme + UrlTail(s)
    ensures GetDbUrlAsync(s, s) == AsyncScheme + UrlTail(s)
  {
  }

  lemma DefaultTokenLifetime(host: string, port: int, db: string, user: string, password: string,
                             secretKey: string, algorithm: string)
    ensures Settings(host, port, db, user, password, secretKey, algorithm).accessTokenExpireMinutes == 30
  {
  }
}
