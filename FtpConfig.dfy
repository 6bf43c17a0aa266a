/** The configuration the upload route reads from its environment, and the
    connection options it derives from it. Every variable may be unset. */
module FtpConfig {
  import opened JsText

  datatype Env = Env(
    ftpHost: Option<string>,
    ftpPort: Option<string>,
    ftpUser: Option<string>,
    ftpPassword: Option<string>,
    ftpUploadPath: Option<string>,
    publicBaseUrl: Option<string>)

  /** The options object passed to `client.access`. */
  datatype AccessOptions = AccessOptions(
    host: Option<string>,
    port: int,
    user: Option<string>,
    password: Option<string>,
    secure: bool)

  const DefaultFtpPort: int := 21

  /** `parseInt(process.env.FTP_PORT) || 21`: both `NaN` and `0` are falsy,
      so they give way to 21; any other parsed value is kept as it is (no
      range check: a negative or oversized port is passed on). */
  function FtpPort(ftpPort: Option<string>): (port: int)
    ensures port != 0
  {
    match ParseInt(ftpPort)
    case None => DefaultFtpPort
    case Some(p) => if p != 0 then p else DefaultFtpPort
  }

  /** The connection options, taken from the environment, with plain
      (unencrypted) FTP. */
  function AccessOptionsFor(env: Env): AccessOptions
  {
    AccessOptions(env.ftpHost, FtpPort(env.ftpPort), env.ftpUser, env.ftpPassword, false)
  }

  /** The port default, all inputs: the port is the parsed value when that is
      a non-zero number, and 21 when the parse is `NaN` or zero. */
  lemma FtpPortDefault(ftpPort: Option<string>)
    ensures FtpPort(ftpPort) == DefaultFtpPort <==>
      ParseInt(ftpPort) == None || ParseInt(ftpPort) == Some(0) || ParseInt(ftpPort) == Some(DefaultFtpPort)
    ensures ParseInt(ftpPort).Some? && ParseInt(ftpPort).value != 0 ==> FtpPort(ftpPort) == ParseInt(ftpPort).value
  {
  }

  /** A port written in decimal, possibly padded with leading whitespace
      and followed by a non-digit (`" 2121 "`, `"2121abc"`), is used as
      written; `"0"` falls back to 21. */
  lemma FtpPortOfDecimal(ws: string, n: int, rest: string)
    requires forall i :: 0 <= i < |ws| ==> IsWhitespace(ws[i])
    requires rest == [] || (!IsDecimalDigit(rest[0]) && !(n == 0 && (rest[0] == 'x' || rest[0] == 'X')))
    ensures FtpPort(Some(ws + ToDecimal(n) + rest)) == if n == 0 then DefaultFtpPort else n
  {
    ParseIntOfDecimal(ws, n, rest);
  }

  /** An unset `FTP_PORT` is read as the string `"undefined"`, which does not
      parse, so the port is 21. */
  lemma FtpPortUnset()
    ensures FtpPort(None) == DefaultFtpPort
  {
    var u := Interpolate(None);
    assert u[0] == 'u';
    TrimStartKeeps(u);
    SignedNotANumber(u);
  }

  /** A value that is not a number at all after its leading whitespace
      (`"ftp"`, `""`) also gives 21. */
  lemma FtpPortNotANumber(v: string)
    requires TrimStart(v) == [] || (!IsDecimalDigit(TrimStart(v)[0]) && TrimStart(v)[0] != '-' && TrimStart(v)[0] != '+')
    ensures FtpPort(Some(v)) == DefaultFtpPort
  {
    SignedNotANumber(TrimStart(v));
  }

  /** A `0x` prefix makes `parseInt` read hexadecimal, so `"0x15"` is port
      21 and `"0xA"` is port 10 rather than the default. */
  lemma FtpPortOfHex()
    ensures FtpPort(Some("0x15")) == 21
    ensures FtpPort(Some("0xA")) == 10
  {
    TrimStartKeeps("0x15");
    assert "0x15"[2..] == "15" && "15"[1..] == "5" && "5"[1..] == [];
    assert DigitPrefixLength("15", 16) == 2;
    assert "15"[..1] == "1" && "1"[..0] == [];
    assert RadixValue("15", 16) == 21;
    assert "15"[..2] == "15";
    assert ParseMagnitude("0x15") == Some(21);
    assert ParseSigned("0x15") == Some(21);
    TrimStartKeeps("0xA");
    assert "0xA"[2..] == "A" && "A"[1..] == [];
    assert DigitPrefixLength("A", 16) == 1;
    assert "A"[..0] == [];
    assert RadixValue("A", 16) == 10;
    assert "A"[..1] == "A";
    assert ParseMagnitude("0xA") == Some(10);
    assert ParseSigned("0xA") == Some(10);
  }
}
