/**
 * `repository.RepositoryConfig`: six private fields, each with a setter that
 * stores its argument and returns the receiver (so calls chain) and a getter
 * that returns the stored value.
 */
module RepositoryConfiguration {
  /** The six settings, as a value (what `*r` copies out of the builder). */
  datatype Settings = Settings(repositoryType: string, host: string, port: int,
                               dbName: string, user: string, password: string)

  /** Go's zero value of the struct: empty strings and port 0. */
  const Unset: Settings := Settings("", "", 0, "", "", "")

  class RepositoryConfig {
    var kind: string
    var host: string
    var port: int
    var dbName: string
    var user: string
    var password: string

    function RepositoryType(): string
      reads this
    {
      kind
    }

    function Host(): string
      reads this
    {
      host
    }

    function Port(): int
      reads this
    {
      port
    }

    function DBName(): string
      reads this
    {
      dbName
    }

    function User(): string
      reads this
    {
      user
    }

    function Password(): string
      reads this
    {
      password
    }

    /** What the six getters return. */
    function Current(): Settings
      reads this
    {
      Settings(RepositoryType(), Host(), Port(), DBName(), User(), Password())
    }

    /** `new(repository.RepositoryConfig)`. */
    constructor ()
      ensures Current() == Unset
    {
      kind := "";
      host := "";
      port := 0;
      dbName := "";
      user := "";
      password := "";
    }

    method SetRepositoryType(t: string) returns (r: RepositoryConfig)
      modifies this
      ensures r == this && Current() == old(Current()).(repositoryType := t)
    {
      kind := t;
      return this;
    }

    method SetHost(h: string) returns (r: RepositoryConfig)
      modifies this
      ensures r == this && Current() == old(Current()).(host := h)
    {
      host := h;
      return this;
    }

    method SetPort(p: int) returns (r: RepositoryConfig)
      modifies this
      ensures r == this && Current() == old(Current()).(port := p)
    {
      port := p;
      return this;
    }

    method SetDbName(name: string) returns (r: RepositoryConfig)
      modifies this
      ensures r == this && Current() == old(Current()).(dbName := name)
    {
      dbName := name;
      return this;
    }

    method SetUser(u: string) returns (r: RepositoryConfig)
      modifies this
      ensures r == this && Current() == old(Current()).(user := u)
    {
      user := u;
      return this;
    }

    method SetPassword(p: string) returns (r: RepositoryConfig)
      modifies this
      ensures r == this && Current() == old(Current()).(password := p)
    {
      password := p;
      return this;
    }
  }

  /**
   * The chain `new(RepositoryConfig).SetRepositoryType(..)...SetPassword(..)`
   * on a fresh builder: every getter returns the value its setter was given.
   */
  method Build(t: string, h: string, p: int, name: string, u: string, pw: string) returns (s: Settings)
    ensures s == Settings(t, h, p, name, u, pw)
  {
    var c := new RepositoryConfig();
    var r := c.SetRepositoryType(t);
    r := r.SetHost(h);
    r := r.SetPort(p);
    r := r.SetDbName(name);
    r := r.SetUser(u);
    r := r.SetPassword(pw);
    s := r.Current();
  }
}
