/** Whether a frontend's choice to save a credential can be honoured by the profile. */
module Retention {
  import opened Wrappers

  /** `persistent` are the requested keys NetworkManager stores itself. */
  datatype Policy = Policy(persistent: set<string>, migrationRequired: bool)

  function Rejection(policy: Policy, save: bool): Option<string> {
    if !save && policy.persistent != {} then Some("temporary-activation-required")
    else if save && policy.migrationRequired then Some("networkmanager-migration-required")
    else None
  }
}
