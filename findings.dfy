/**
 * The finding record (AWS Security Finding Format). The engine treats it as
 * opaque; only the fields that the PagerDuty add-on reads are spelled out.
 */
module Findings {

  datatype Resource = Resource(resourceType: string, id: string)

  datatype Finding = Finding(
    id: string,
    awsAccountId: string,
    title: string,
    description: string,
    severityLabel: string,
    remediationText: string,
    remediationUrl: string,
    resources: seq<Resource>)
}
