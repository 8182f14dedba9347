/**
  The ten SSDP headers as one union, with the name each is stored under, the
  codec that reads it and the one that writes it. A typed `set` stores the
  written bytes under the header's name; a typed `get` reads them back.
 */
module TypedHeader {
  import opened Wrappers
  import opened Bytes
  import UsnHeader
  import NtHeader
  import StHeader
  import NtsHeader
  import ManHeader
  import MxHeader
  import BootIdHeader
  import ConfigIdHeader
  import SearchPortHeader
  import SecureLocationHeader

  /** Which header type a typed lookup asks for (the type parameter `H` of `get::<H>`). */
  datatype HeaderKind = USN | NT | ST | NTS | MAN | MX | BOOTID | CONFIGID | SEARCHPORT | SECURELOCATION
  {
    /** `H::header_name()`. */
    function Name(): string {
      match this
      case USN => UsnHeader.USN_HEADER_NAME
      case NT => NtHeader.NT_HEADER_NAME
      case ST => StHeader.ST_HEADER_NAME
      case NTS => NtsHeader.NTS_HEADER_NAME
      case MAN => ManHeader.MAN_HEADER_NAME
      case MX => MxHeader.MX_HEADER_NAME
      case BOOTID => BootIdHeader.BOOTID_HEADER_NAME
      case CONFIGID => ConfigIdHeader.CONFIGID_HEADER_NAME
      case SEARCHPORT => SearchPortHeader.SEARCHPORT_HEADER_NAME
      case SECURELOCATION => SecureLocationHeader.SECURELOCATION_HEADER_NAME
    }
  }

  /** A value of one of the ten header types. */
  datatype Header =
    | Usn(usn: UsnHeader.USN)
    | Nt(nt: NtHeader.NT)
    | St(st: StHeader.ST)
    | Nts(nts: NtsHeader.NTS)
    | Man(man: ManHeader.Man)
    | Mx(mx: MxHeader.MX)
    | BootId(bootId: BootIdHeader.BootID)
    | ConfigId(configId: ConfigIdHeader.ConfigID)
    | SearchPort(searchPort: SearchPortHeader.SearchPort)
    | SecureLocation(location: SecureLocationHeader.SecureLocation)
  {
    function Kind(): HeaderKind {
      match this
      case Usn(_) => USN
      case Nt(_) => NT
      case St(_) => ST
      case Nts(_) => NTS
      case Man(_) => MAN
      case Mx(_) => MX
      case BootId(_) => BOOTID
      case ConfigId(_) => CONFIGID
      case SearchPort(_) => SEARCHPORT
      case SecureLocation(_) => SECURELOCATION
    }

    /**
      The values each codec writes in a form it reads back: these are the
      conditions of the codecs' round-trip lemmas.
     */
    predicate Reparses() {
      match this
      case Usn(u) =>
        UsnHeader.SeparableField(u.first) && (u.second.Some? ==> u.second.value.WellFormed())
      case Nt(n) => n.field.WellFormed()
      case St(s) => s.Target? ==> s.field.WellFormed() && s.field != StHeader.SSDP_ALL_FIELD
      case Nts(_) => true
      case Man(_) => true
      case Mx(m) => MxHeader.MX_HEADER_MIN <= m.wait <= MxHeader.MX_HEADER_MAX
      case BootId(b) => b.id <= 0x7FFF_FFFF
      case ConfigId(c) => c.id <= 0x7FFF_FFFF
      case SearchPort(p) => p.port >= SearchPortHeader.SEARCHPORT_MIN_VALUE
      case SecureLocation(l) => l.url != []
    }
  }

  /** `H::parse_header` for the kind asked for; the result is always of that kind. */
  function Parse(kind: HeaderKind, raw: seq<seq<byte>>): (r: Option<Header>)
    ensures r.Some? ==> r.value.Kind() == kind
    ensures |raw| != 1 ==> r.None?
  {
    match kind
    case USN => (match UsnHeader.ParseHeader(raw) case Some(v) => Some(Usn(v)) case None => None)
    case NT => (match NtHeader.ParseHeader(raw) case Some(v) => Some(Nt(v)) case None => None)
    case ST => (match StHeader.ParseHeader(raw) case Some(v) => Some(St(v)) case None => None)
    case NTS => (match NtsHeader.ParseHeader(raw) case Some(v) => Some(Nts(v)) case None => None)
    case MAN => (match ManHeader.ParseHeader(raw) case Some(v) => Some(Man(v)) case None => None)
    case MX => (match MxHeader.ParseHeader(raw) case Some(v) => Some(Mx(v)) case None => None)
    case BOOTID => (match BootIdHeader.ParseHeader(raw) case Some(v) => Some(BootId(v)) case None => None)
    case CONFIGID => (match ConfigIdHeader.ParseHeader(raw) case Some(v) => Some(ConfigId(v)) case None => None)
    case SEARCHPORT => (match SearchPortHeader.ParseHeader(raw) case Some(v) => Some(SearchPort(v)) case None => None)
    case SECURELOCATION =>
      (match SecureLocationHeader.ParseHeader(raw) case Some(v) => Some(SecureLocation(v)) case None => None)
  }

  /** `fmt_header` of the value's own type. */
  function Format(h: Header): seq<byte> {
    match h
    case Usn(v) => UsnHeader.FmtHeader(v)
    case Nt(v) => NtHeader.FmtHeader(v)
    case St(v) => StHeader.FmtHeader(v)
    case Nts(v) => NtsHeader.FmtHeader(v)
    case Man(v) => ManHeader.FmtHeader(v)
    case Mx(v) => MxHeader.FmtHeader(v)
    case BootId(v) => BootIdHeader.FmtHeader(v)
    case ConfigId(v) => ConfigIdHeader.FmtHeader(v)
    case SearchPort(v) => SearchPortHeader.FmtHeader(v)
    case SecureLocation(v) => SecureLocationHeader.FmtHeader(v)
  }

  /** Every header value the codecs can write back is read back as itself. */
  lemma FormatParse(h: Header)
    requires h.Reparses()
    ensures Parse(h.Kind(), [Format(h)]) == Some(h)
  {
    if h.Usn? || h.Nt? || h.St? || h.Nts? || h.Man? {
      FormatParseTargets(h);
    } else {
      FormatParseValues(h);
    }
  }

  /** The round trip for the headers that name a search or notification target. */
  lemma FormatParseTargets(h: Header)
    requires h.Reparses() && (h.Usn? || h.Nt? || h.St? || h.Nts? || h.Man?)
    ensures Parse(h.Kind(), [Format(h)]) == Some(h)
  {
    match h
    case Usn(v) =>
      var raw := [UsnHeader.FmtHeader(v)];
      UsnHeader.RoundTrip(v);
      assert UsnHeader.ParseHeader(raw) == Some(v);
    case Nt(v) =>
      var raw := [NtHeader.FmtHeader(v)];
      NtHeader.RoundTrip(v);
      assert NtHeader.ParseHeader(raw) == Some(v);
    case St(v) =>
      var raw := [StHeader.FmtHeader(v)];
      StHeader.RoundTrip(v);
      assert StHeader.ParseHeader(raw) == Some(v);
    case Nts(v) =>
      var raw := [NtsHeader.FmtHeader(v)];
      NtsHeader.RoundTrip(v);
      assert NtsHeader.ParseHeader(raw) == Some(v);
    case Man(v) =>
      var raw := [ManHeader.FmtHeader(v)];
      ManHeader.RoundTrip(v);
      assert ManHeader.ParseHeader(raw) == Some(v);
  }

  /** The round trip for the headers that carry a number or a URL. */
  lemma FormatParseValues(h: Header)
    requires h.Reparses() && !(h.Usn? || h.Nt? || h.St? || h.Nts? || h.Man?)
    ensures Parse(h.Kind(), [Format(h)]) == Some(h)
  {
    match h
    case Mx(v) =>
      var raw := [MxHeader.FmtHeader(v)];
      MxHeader.RoundTrip(v);
      assert MxHeader.ParseHeader(raw) == Some(v);
    case BootId(v) =>
      var raw := [BootIdHeader.FmtHeader(v)];
      BootIdHeader.RoundTrip(v);
      assert BootIdHeader.ParseHeader(raw) == Some(v);
    case ConfigId(v) =>
      var raw := [ConfigIdHeader.FmtHeader(v)];
      ConfigIdHeader.RoundTrip(v);
      assert ConfigIdHeader.ParseHeader(raw) == Some(v);
    case SearchPort(v) =>
      var raw := [SearchPortHeader.FmtHeader(v)];
      SearchPortHeader.RoundTrip(v);
      assert SearchPortHeader.ParseHeader(raw) == Some(v);
    case SecureLocation(v) =>
      var raw := [SecureLocationHeader.FmtHeader(v)];
      SecureLocationHeader.RoundTrip(v);
      assert SecureLocationHeader.ParseHeader(raw) == Some(v);
  }
}
