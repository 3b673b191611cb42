/**
 * The settings bound under the prefix "spring.cloud.config.backup": whether the
 * backup is enabled, and where the backup file lives.
 */
module SupportProperties {
  import opened Wrappers

  const DefaultFileName: string := "fallback.properties"

  /** Java's string conversion in a concatenation: an unset (null) string reads "null". */
  function JavaString(s: Option<string>): string
  {
    if s.Some? then s.value else "null"
  }

  class ConfigSupportProperties {
    var enable: bool
    /** `None` stands for the null reference the field holds until its setter runs. */
    var fallbackLocation: Option<string>

    constructor ()
      ensures !IsEnable() && GetFallbackLocation() == None
    {
      enable := false;
      fallbackLocation := None;
    }

    function IsEnable(): bool
      reads this
    {
      enable
    }

    method SetEnable(enable: bool)
      modifies this
      ensures IsEnable() == enable
      ensures GetFallbackLocation() == old(GetFallbackLocation())
    {
      this.enable := enable;
    }

    function GetFallbackLocation(): Option<string>
      reads this
    {
      fallbackLocation
    }

    /**
     * A dot-free argument first makes the field its OLD value with the default
     * file name appended; the assignment that follows overwrites that, so the
     * argument is what the field ends up holding in every case.
     */
    method SetFallbackLocation(fallbackLocation: string)
      modifies this
      ensures GetFallbackLocation() == Some(fallbackLocation)
      ensures IsEnable() == old(IsEnable())
    {
      if '.' !in fallbackLocation {
        this.fallbackLocation := Some(JavaString(this.fallbackLocation) + DefaultFileName);
      }
      this.fallbackLocation := Some(fallbackLocation);
    }
  }
}
