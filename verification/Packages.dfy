/** Installed packages, solver changes and the signed manifest that bounds them. */
module Packages {
  import opened Wrappers
  import opened Decimal
  import opened Records
  import opened Text

  datatype Installed = Installed(name: string, version: string, architecture: string, vendor: string)

  datatype Action = Install | Upgrade | Downgrade | Remove | Reinstall

  datatype Change = Change(
    name: string, architecture: string, action: Action,
    currentVersion: Option<string>, proposedVersion: Option<string>,
    currentVendor: Option<string>, proposedVendor: Option<string>,
    repositoryAlias: Option<string>, downloadBytes: u64, sizeBefore: u64, sizeAfter: u64)

  // A directed vendor grant; without a scope it covers every package.
  datatype VendorTransition = VendorTransition(fromVendor: string, toVendor: string, packages: Option<seq<string>>)

  datatype MigrationPackage = MigrationPackage(
    name: string, architecture: string, fromVersion: string, fromVendor: string,
    toVersion: string, toVendor: string, repositoryAlias: string, sha256: string, ifInstalled: bool)

  // The parts of a manifest that bound a transaction.
  datatype Manifest = Manifest(
    source: ReleaseIdentity, target: ReleaseIdentity, minimumFreeSpace: u64, repositories: seq<string>,
    allowedRemovals: seq<string>, vendorTransitions: seq<VendorTransition>, lockstep: seq<seq<string>>,
    migration: Option<seq<MigrationPackage>>)

  predicate IsAlphanumeric(c: char) {
    'a' <= c <= 'z' || 'A' <= c <= 'Z' || '0' <= c <= '9'
  }

  predicate ValidPackage(name: string) {
    name != "" && forall c :: c in name ==> IsAlphanumeric(c) || c == '+' || c == '.' || c == '-' || c == '_'
  }

  // `char::is_control`
  predicate IsControlChar(c: char) {
    c as int < 0x20 || 0x7f <= c as int < 0xa0
  }

  // An absent or blank vendor is an unknown identity.
  predicate ValidVendor(vendor: string) {
    && (exists c :: c in vendor && !IsWhitespace(c))
    && ByteLength(vendor) <= 512
    && forall c :: c in vendor ==> !IsControlChar(c)
  }

  predicate ValidEdition(version: string) {
    && 0 < |version| <= 256 && IsAlphanumeric(version[0])
    && forall c :: c in version ==> IsAlphanumeric(c) || c in "._:+~^-"
  }
}
