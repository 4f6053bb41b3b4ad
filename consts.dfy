/** The numeric and text constants the core takes from its constants file. */
module Consts {
  const MinPortsFrom: int := 5000
  const PortsPerContainer: int := 100
  const CertTtl: int := 3 * 3600
  const TotalUnits: int := 100
  const SatsPerUnitPerInterval: int := 5
  const DiskPerUnitMb: int := 50
  const ChargeInterval: int := 3600
  const KindEnclavedRpc: int := 29425
  const KindRootCertificate: int := 23793
  const KindEnclavedCertificate: int := 23797
  const NwcRelay: string := "wss://relay.zap.land"
  const EnclavedRelay: string := "wss://relay.enclaved.org"
  const Repo: string := "https://github.com/nostrband/enclaved"
  /** The record name of the built-in wallet container. */
  const WalletName: string := "nwc-enclaved"
}
