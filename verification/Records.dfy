/** What tests publish and what the DNS server answers: record types, stored records and files, resource records. */
module Records {
  import opened Options

  // Numbers of record types and classes (section 3.2 of RFC 1035, RFC 3596, RFC 8659)
  const TYPE_A := 1
  const TYPE_NS := 2
  const TYPE_CNAME := 5
  const TYPE_SOA := 6
  const TYPE_MX := 15
  const TYPE_TXT := 16
  const TYPE_AAAA := 28
  const TYPE_IXFR := 251
  const TYPE_AXFR := 252
  const TYPE_ANY := 255
  const TYPE_CAA := 257
  const CLASS_INET := 1

  const STORED_TTL := 15

  type Address = string

  /** The process-wide settings: the operator's domain, its addresses, whether the dashboard insists on
      HTTPS, the DNS library's syntax check for names, and the record types that library can decode. */
  datatype Config = Config(
    domain: string, v4: seq<Address>, v6: seq<Address>, redirectToHTTPS: bool,
    isDomainName: string -> bool, decodable: set<nat>)

  /** The decoded content of a data_json column; Malformed stands for text that no dashboard form writes. */
  datatype StoredData =
    | TxtJson(txt: string)
    | CaaJson(flag: nat, tag: string, value: string)
    | CnameJson(target: string)
    | Malformed

  datatype PublishedRecord = PublishedRecord(subdomain: string, rrtype: nat, data: StoredData)

  datatype PublishedFile = PublishedFile(scheme: string, subdomain: string, path: string, content: string)

  datatype RRData =
    | NsData(ns: string)
    | SoaData(primary: string, mbox: string, serial: nat, refresh: nat, retry: nat, expire: nat, minttl: nat)
    | AddressData(addr: Address)
    | MxData(preference: nat, mx: string)
    | TxtData(txts: seq<string>)
    | CaaData(caaFlag: nat, caaTag: string, caaValue: string)
    | CnameData(alias: string)

  datatype RR = RR(name: string, rrtype: nat, ttl: nat, data: RRData)

  /** json.Unmarshal into the resource record of the row's type. */
  function Unmarshal(rrtype: nat, data: StoredData): Option<RRData> {
    match data
    case TxtJson(txt) => if rrtype == TYPE_TXT then Some(TxtData([txt])) else None
    case CaaJson(flag, tag, value) =>
      if rrtype == TYPE_CAA && flag <= 255 then Some(CaaData(flag, tag, value)) else None
    case CnameJson(target) => if rrtype == TYPE_CNAME then Some(CnameData(target)) else None
    case Malformed => None
  }
}
