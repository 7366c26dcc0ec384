/**
 * Installing the gateway's root certificate before a downstream device
 * connects through an edge gateway (`InstallCACert`).
 */
module Certificate {
  import opened DotNetString

  /** The fixed file name of the root certificate. */
  const TrustedCACertPath := "azure-iot-test-only.root.ca.cert.pem"

  /** What an installation attempt does to the OS trust store. */
  datatype CertResult =
    | Installed(path: string)       // the certificate was added to the current user's root store
    | NotConfigured                 // the path is blank: nothing installed, nothing thrown
    | CertificateMissing(path: string)  // the file does not exist: InvalidOperationException is thrown

  /** The installation logic for a given certificate path, with the file's existence as an input. */
  function InstallCertificate(path: string, fileExists: bool): CertResult
  {
    if IsBlank(path) then NotConfigured
    else if !fileExists then CertificateMissing(path)
    else Installed(path)
  }

  /** `InstallCACert`: the logic above applied to the fixed certificate path. */
  function InstallCACert(fileExists: bool): CertResult
  {
    InstallCertificate(TrustedCACertPath, fileExists)
  }

  /** The store is touched only for a non-blank path whose file exists; a missing file is the only error. */
  lemma InstallCertificateOutcome(path: string, fileExists: bool)
    ensures InstallCertificate(path, fileExists).Installed? <==> !IsBlank(path) && fileExists
    ensures InstallCertificate(path, fileExists).CertificateMissing? <==> !IsBlank(path) && !fileExists
    ensures InstallCertificate(path, fileExists).Installed? ==> InstallCertificate(path, fileExists).path == path
  {
  }

  /**
   * With the fixed, non-blank path the "not configured" branch is dead:
   * installation fails exactly when the file is missing and succeeds otherwise.
   */
  lemma InstallCACertOutcome(fileExists: bool)
    ensures InstallCACert(fileExists) == if fileExists then Installed(TrustedCACertPath) else CertificateMissing(TrustedCACertPath)
  {
    assert !IsWhiteSpace(TrustedCACertPath[0]);
  }
}
