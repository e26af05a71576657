/** The configured entities of d2_config.h that the update manager hands to transactions. */
module Domains {
  import opened Text
  import opened ReverseNames

  datatype TsigKey = TsigKey(name: string, algorithm: string, secret: string, digestBits: nat)

  datatype DnsServer = DnsServer(address: Address, port: nat)

  datatype Domain = Domain(name: string, servers: seq<DnsServer>, key: Option<TsigKey>)
}
