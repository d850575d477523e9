/**
 * The one application configuration value the trash expiration job keeps:
 * the key 'cronjob_user_offset' of the app 'files_trashbin'.  The store is
 * an object whose value is changed in place by an increment and by a set.
 */
module Config {
  import opened Wrappers

  class AppConfig {
    /** The persisted checkpoint: where the next chunk of users begins. */
    var cronjobUserOffset: nat

    /** A key that was never written reads as 0. */
    constructor ()
      ensures cronjobUserOffset == 0
    {
      cronjobUserOffset := 0;
    }

    /**
     * Adds `delta` to the stored value in one atomic step and returns the new
     * value.  `storeFails` stands for the store answering `null`; the value is
     * then left as it was (the increment applies wholly or not at all).
     */
    method IncreaseAppValue(delta: nat, storeFails: bool) returns (result: Option<int>)
      modifies this
      ensures storeFails ==> result == None && cronjobUserOffset == old(cronjobUserOffset)
      ensures !storeFails ==> cronjobUserOffset == old(cronjobUserOffset) + delta
      ensures !storeFails ==> result == Some(cronjobUserOffset)
    {
      if storeFails {
        result := None;
      } else {
        cronjobUserOffset := cronjobUserOffset + delta;
        result := Some(cronjobUserOffset);
      }
    }

    /** Overwrites the stored value unconditionally. */
    method SetAppValue(value: nat)
      modifies this
      ensures cronjobUserOffset == value
    {
      cronjobUserOffset := value;
    }
  }
}
